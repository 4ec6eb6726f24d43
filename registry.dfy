/**
 * The registry read from registry.json at start-up (main.ts:6), its exact
 * key lookup (`hasOwnProperty`) and the substring search over its keys.
 */
module Registry {
  import opened Text

  /**
   * The parsed registry: an entry per plugin identifier, plus the order in
   * which `Object.keys` lists the identifiers.
   */
  datatype Registry = Registry(entries: map<string, string>, keys: seq<string>)

  /** `keys` lists every identifier of `entries` exactly once. */
  ghost predicate Valid(reg: Registry) {
    && (forall k :: k in reg.entries <==> k in reg.keys)
    && (forall i, j :: 0 <= i < j < |reg.keys| ==> reg.keys[i] != reg.keys[j])
  }

  const RepoNotListed: string := "404"

  /** `GET /api/repo/:plugin`: the stored URL on a hit, the text "404" on a miss. */
  function RepoRoute(reg: Registry, plugin: string): (body: string)
    ensures plugin in reg.entries ==> body == reg.entries[plugin]
    ensures plugin !in reg.entries ==> body == RepoNotListed
  {
    if plugin in reg.entries then reg.entries[plugin] else RepoNotListed
  }

  /** A registry URL that is literally "404" cannot be told apart from a miss by this route. */
  lemma RepoRouteAmbiguous(reg: Registry, plugin: string, other: string)
    requires plugin in reg.entries && reg.entries[plugin] == RepoNotListed
    requires other !in reg.entries
    ensures RepoRoute(reg, plugin) == RepoRoute(reg, other)
  {
  }

  /** `a` is `b` with some elements left out, the rest in their order. */
  predicate IsSubsequence(a: seq<string>, b: seq<string>)
    decreases |b|
  {
    a == [] || (b != [] && ((a[0] == b[0] && IsSubsequence(a[1..], b[1..])) || IsSubsequence(a, b[1..])))
  }

  /** `keys.filter(key => key.includes(query))`. */
  function FilterIncluding(keys: seq<string>, query: string): (r: seq<string>)
    ensures |r| <= |keys|
    ensures forall k :: k in r <==> k in keys && Includes(k, query)
  {
    if keys == [] then []
    else (if Includes(keys[0], query) then [keys[0]] else []) + FilterIncluding(keys[1..], query)
  }

  /** `searchPlugins(query)` (main.ts:151-154). */
  function SearchPlugins(reg: Registry, query: string): (r: seq<string>)
    ensures Valid(reg) ==> forall k :: k in r <==> k in reg.entries && Includes(k, query)
  {
    FilterIncluding(reg.keys, query)
  }

  /** The filter keeps the keys' order. */
  lemma {:induction false} FilterKeepsOrder(keys: seq<string>, query: string)
    ensures IsSubsequence(FilterIncluding(keys, query), keys)
  {
    if keys != [] {
      FilterKeepsOrder(keys[1..], query);
      var rest := FilterIncluding(keys[1..], query);
      if Includes(keys[0], query) {
        assert FilterIncluding(keys, query) == [keys[0]] + rest;
        assert ([keys[0]] + rest)[1..] == rest;
      } else {
        assert FilterIncluding(keys, query) == rest;
      }
    }
  }

  /** Search results come in registry key order. */
  lemma SearchKeepsRegistryOrder(reg: Registry, query: string)
    ensures IsSubsequence(SearchPlugins(reg, query), reg.keys)
  {
    FilterKeepsOrder(reg.keys, query);
  }

  /** Every identifier contains the empty string, so an empty query lists the whole registry. */
  lemma {:induction false} FilterEmptyQuery(keys: seq<string>)
    ensures FilterIncluding(keys, "") == keys
  {
    if keys != [] {
      assert OccursAt(keys[0], "", 0);
      FilterEmptyQuery(keys[1..]);
      assert keys == [keys[0]] + keys[1..];
    }
  }
}
