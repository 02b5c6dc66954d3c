/** The per-run retrieval cache (`_retrieve_with_cache`) over a backend that answers each query with one row. */
module SearchCache {
  datatype Retriever = Web | VectorDb

  function Value(r: Retriever): string {
    match r
    case Web => "web"
    case VectorDb => "vector_db"
  }

  function CacheKey(q: string, r: Retriever): string {
    Value(r) + ":" + q
  }

  /** One key, one query of one retriever. */
  lemma KeysNeverMix(q: string, r: Retriever, q': string, r': Retriever)
    ensures CacheKey(q, r) == CacheKey(q', r') <==> q == q' && r == r'
  {
    var a, b := CacheKey(q, r), CacheKey(q', r');
    assert a[0] == Value(r)[0] && b[0] == Value(r')[0];
    assert a[|Value(r)| + 1..] == q && b[|Value(r')| + 1..] == q';
  }

  function Uncached(known: set<string>, queries: seq<string>, r: Retriever): seq<string> {
    if queries == [] then []
    else
      var q := queries[|queries| - 1];
      Uncached(known, queries[..|queries| - 1], r) + if CacheKey(q, r) in known then [] else [q]
  }

  lemma {:induction false} UncachedIsFilter(known: set<string>, queries: seq<string>, r: Retriever)
    ensures forall q :: q in Uncached(known, queries, r) <==> q in queries && CacheKey(q, r) !in known
  {
    if queries != [] {
      UncachedIsFilter(known, queries[..|queries| - 1], r);
      assert queries == queries[..|queries| - 1] + [queries[|queries| - 1]];
    }
  }

  /** Query by query, in order, and as often as a query is asked for. */
  lemma {:induction false} UncachedJoins(known: set<string>, a: seq<string>, b: seq<string>, q: string, r: Retriever)
    ensures Uncached(known, a + b, r) == Uncached(known, a, r) + Uncached(known, b, r)
    ensures Uncached(known, [q], r) == if CacheKey(q, r) in known then [] else [q]
    decreases |b|
  {
    hide CacheKey;
    assert [q][..0] == [];
    if b == [] {
      assert a + b == a;
    } else {
      assert (a + b)[..|a + b| - 1] == a + b[..|b| - 1];
      UncachedJoins(known, a, b[..|b| - 1], q, r);
    }
  }

  type Backend<!T> = (Retriever, string) -> seq<T>

  class Cache<T> {
    const backend: Backend<T>
    var rows: map<string, seq<T>>
    /** Every query sent to the backend, in order. */
    ghost var asked: seq<(Retriever, string)>

    /** The cache holds what the backend would answer, for everything it was asked. */
    ghost predicate Valid()
      reads this
    {
      && (forall q, r :: CacheKey(q, r) in rows ==> rows[CacheKey(q, r)] == backend(r, q))
      && (forall a | a in asked :: CacheKey(a.1, a.0) in rows)
    }

    constructor (backend: Backend<T>)
      ensures Valid() && rows == map[] && asked == [] && this.backend == backend
    {
      this.backend, rows, asked := backend, map[], [];
    }

    /** The answer is that of uncached retrieval. Only queries that no earlier call asked are asked. */
    method Retrieve(queries: seq<string>, r: Retriever) returns (results: seq<seq<T>>)
      requires Valid()
      modifies this
      ensures Valid()
      ensures |results| == |queries| && forall i | 0 <= i < |queries| :: results[i] == backend(r, queries[i])
      ensures |asked| >= |old(asked)| && asked[..|old(asked)|] == old(asked)
      ensures var missing := Uncached(old(rows.Keys), queries, r);
        && |asked| == |old(asked)| + |missing|
        && forall i | 0 <= i < |missing| :: asked[|old(asked)| + i] == (r, missing[i])
      ensures forall i | |old(asked)| <= i < |asked| :: asked[i] !in old(asked)
      ensures rows.Keys == old(rows.Keys) + set q | q in queries :: CacheKey(q, r)
    {
      hide CacheKey, Uncached;
      var missing := Uncached(rows.Keys, queries, r);
      UncachedIsFilter(rows.Keys, queries, r);
      StoreAll(missing, r);
      results := [];
      for i := 0 to |queries|
        invariant |results| == i && forall j | 0 <= j < i :: results[j] == backend(r, queries[j])
      {
        assert queries[i] in queries;
        results := results + [rows[CacheKey(queries[i], r)]];
      }
    }

    /** `cache.update` with the rows of one request. */
    method StoreAll(missing: seq<string>, r: Retriever)
      requires Valid()
      modifies this
      ensures Valid()
      ensures asked == old(asked) + seq(|missing|, i requires 0 <= i < |missing| => (r, missing[i]))
      ensures rows.Keys == old(rows.Keys) + set q | q in missing :: CacheKey(q, r)
    {
      hide CacheKey;
      for i := 0 to |missing|
        invariant Valid()
        invariant asked == old(asked) + seq(i, j requires 0 <= j < |missing| => (r, missing[j]))
        invariant rows.Keys == old(rows.Keys) + set q | q in missing[..i] :: CacheKey(q, r)
      {
        forall q, r' ensures CacheKey(q, r') == CacheKey(missing[i], r) <==> q == missing[i] && r' == r {
          KeysNeverMix(q, r', missing[i], r);
        }
        rows := rows[CacheKey(missing[i], r) := backend(r, missing[i])];
        asked := asked + [(r, missing[i])];
        assert missing[..i + 1] == missing[..i] + [missing[i]];
      }
      assert missing[..|missing|] == missing;
    }
  }
}
