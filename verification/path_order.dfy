/**
 * The part both `mergeErrors` functions share: which paths get a record, and
 * in which order (the insertion order of the `mergedErrors` dictionary).
 * Everything here is stated over the sequence of the errors' paths.
 */
module PathOrder {

  /** `!stripEmptyPaths || error.path`: whether an error at `p` may open a record. */
  predicate Kept(p: string, strip: bool) {
    !strip || p != ""
  }

  /** The position of the first error at path `p`. */
  function FirstIndex(paths: seq<string>, p: string): (k: nat)
    requires p in paths
    ensures k < |paths| && paths[k] == p
    ensures forall j | 0 <= j < k :: paths[j] != p
  {
    if paths[0] == p then 0 else 1 + FirstIndex(paths[1..], p)
  }

  /** The record keys of the dictionary after every path has been seen, in insertion order. */
  function FirstPaths(paths: seq<string>, strip: bool): (r: seq<string>)
    ensures |r| <= |paths|
    ensures forall i, j | 0 <= i < j < |r| :: r[i] != r[j]
    ensures forall p :: p in r <==> p in paths && Kept(p, strip)
  {
    if paths == [] then []
    else
      var init := paths[..|paths| - 1];
      var ps := FirstPaths(init, strip);
      var p := paths[|paths| - 1];
      assert paths == init + [p];
      if p in ps || !Kept(p, strip) then ps else ps + [p]
  }

  /** Appending a path does not move the first occurrence of a path already seen. */
  lemma FirstIndexAppend(paths: seq<string>, x: string, p: string)
    requires p in paths
    ensures FirstIndex(paths + [x], p) == FirstIndex(paths, p)
  {
    var k, k' := FirstIndex(paths, p), FirstIndex(paths + [x], p);
    assert (paths + [x])[k] == p;
    assert paths[k'] == p;
  }

  /** A path seen for the first time is first seen at the end. */
  lemma FirstIndexNew(paths: seq<string>, p: string)
    requires p !in paths
    ensures FirstIndex(paths + [p], p) == |paths|
  {
  }

  /** Every path in `r` occurs in `paths`, and `r` lists them by increasing first occurrence. */
  ghost predicate InFirstAppearanceOrder(paths: seq<string>, r: seq<string>) {
    forall i, j | 0 <= i < j < |r| ::
      r[i] in paths && r[j] in paths && FirstIndex(paths, r[i]) < FirstIndex(paths, r[j])
  }

  /** Records come in order of the first appearance of their paths. */
  lemma {:induction false} FirstPathsInOrder(paths: seq<string>, strip: bool)
    ensures InFirstAppearanceOrder(paths, FirstPaths(paths, strip))
  {
    if paths != [] {
      var init := paths[..|paths| - 1];
      var p := paths[|paths| - 1];
      assert paths == init + [p];
      var ps := FirstPaths(init, strip);
      FirstPathsInOrder(init, strip);
      var r := FirstPaths(paths, strip);
      assert r == if p in ps || !Kept(p, strip) then ps else ps + [p];
      forall i, j | 0 <= i < j < |r|
        ensures r[i] in paths && r[j] in paths && FirstIndex(paths, r[i]) < FirstIndex(paths, r[j])
      {
        assert r[i] == ps[i] && ps[i] in ps;
        FirstIndexAppend(init, p, ps[i]);
        if j < |ps| {
          assert r[j] == ps[j] && ps[j] in ps;
          FirstIndexAppend(init, p, ps[j]);
        } else {
          assert r[j] == p && p !in init;
          FirstIndexNew(init, p);
        }
      }
    }
  }
}
