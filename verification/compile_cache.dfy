/**
 * The compilation cache: compiled checkers are kept in a map keyed by the
 * schema object itself, so each schema object is compiled once.
 */
module CompileCache {
  import opened Schemas

  /** A schema object as JavaScript holds it: compared by reference, not by contents. */
  class SchemaObject {
    const node: Schema

    constructor(node: Schema)
      ensures this.node == node
    {
      this.node := node;
    }
  }

  /**
   * The module-level `compilerCache`, with the compiler passed in as
   * `compile`. `compiles` counts the calls to the compiler.
   */
  class Cache<C> {
    var cache: map<SchemaObject, C>
    ghost var compiles: nat

    /** Each cached entry was compiled once, and nothing else was compiled. */
    ghost predicate Valid()
      reads this
    {
      compiles == |cache.Keys|
    }

    constructor()
      ensures Valid() && cache == map[]
    {
      cache := map[];
      compiles := 0;
    }

    /** cacheCompile */
    method CacheCompile(schema: SchemaObject, references: seq<Schema>, compile: (Schema, seq<Schema>) -> C) returns (checker: C)
      requires Valid()
      modifies this
      ensures Valid()
      ensures schema in cache && cache[schema] == checker
      ensures schema in old(cache) ==> checker == old(cache)[schema] && cache == old(cache) && compiles == old(compiles)
      ensures schema !in old(cache) ==>
        && checker == compile(schema.node, references)
        && cache == old(cache)[schema := checker]
        && compiles == old(compiles) + 1
    {
      if schema in cache {
        return cache[schema];
      }
      checker := compile(schema.node, references);
      compiles := compiles + 1;
      cache := cache[schema := checker];
    }
  }

  /**
   * Two schema objects with the same contents are compiled separately: after
   * one call on each, both are cached and the compiler has run twice. A third
   * call, on the first object with other references, returns what is cached
   * and does not run the compiler.
   */
  method IdentityNotContents<C>(node: Schema, other: Schema, compile: (Schema, seq<Schema>) -> C)
    returns (cache: Cache<C>, a: SchemaObject, b: SchemaObject, first: C, second: C, again: C, ghost compilesBeforeAgain: nat)
    ensures fresh(cache) && fresh(a) && fresh(b) && cache.Valid()
    ensures a != b && a.node == node && b.node == node
    ensures first == compile(node, []) && second == compile(node, [])
    ensures compilesBeforeAgain == 2 && cache.compiles == 2
    ensures cache.cache == map[a := first, b := second]
    ensures again == first
  {
    cache := new Cache<C>();
    a := new SchemaObject(node);
    b := new SchemaObject(node);
    first := cache.CacheCompile(a, [], compile);
    second := cache.CacheCompile(b, [], compile);
    compilesBeforeAgain := cache.compiles;
    again := cache.CacheCompile(a, [other], compile);
  }
}
