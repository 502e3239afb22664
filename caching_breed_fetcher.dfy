/** A memoising decorator around a breed lookup: getSubBreeds answers from an
    in-memory cache keyed by the lower-cased breed name, asks the underlying
    fetcher only on a miss, counts those calls, and caches successes only. */
module DogApi {
  import opened LowerCase

  /** What a fetcher answers for a breed name: its sub-breeds, or the
      BreedNotFoundException of the Java interface. */
  datatype FetchResult = Found(subBreeds: seq<string>) | NotFound

  /** The wrapped data source: a fixed answer for every name, as given. */
  type Fetcher = string -> FetchResult

  /** The state of a caching fetcher: its cache, its call counter and, for
      the proofs, the names it has passed to the underlying fetcher, in order. */
  datatype Snapshot = Snapshot(cache: map<string, seq<string>>, callsMade: nat, delegated: seq<string>)

  /** The state after one lookup, and what the lookup answered. */
  datatype Step = Step(after: Snapshot, result: FetchResult)

  /** The state of a freshly constructed fetcher. */
  function Initial(): (s: Snapshot)
    ensures s.cache == map[] && s.callsMade == 0 && s.delegated == []
  {
    Snapshot(map[], 0, [])
  }

  // ---------------------------------------------------------------------
  // What every reachable state satisfies
  // ---------------------------------------------------------------------

  /** Every key is a normalised (lower-case) name. */
  ghost predicate KeysLowerCase(cache: map<string, seq<string>>) {
    forall k :: k in cache ==> IsLower(k)
  }

  /** Every cached list is what the underlying fetcher answered for some
      name it was asked about that normalises to the entry's key. */
  ghost predicate CacheSound(fetch: Fetcher, s: Snapshot) {
    forall k :: k in s.cache ==>
      exists i :: 0 <= i < |s.delegated| && Lower(s.delegated[i]) == k && fetch(s.delegated[i]) == Found(s.cache[k])
  }

  /** Every successful answer of the underlying fetcher is in the cache. */
  ghost predicate CacheComplete(fetch: Fetcher, s: Snapshot) {
    forall i :: 0 <= i < |s.delegated| && fetch(s.delegated[i]).Found? ==> Lower(s.delegated[i]) in s.cache
  }

  /** Once the underlying fetcher has succeeded for a key, it is never asked
      about that key (in any casing) again. */
  ghost predicate AtMostOneSuccessPerKey(fetch: Fetcher, delegated: seq<string>) {
    forall i, j :: 0 <= i < j < |delegated| && fetch(delegated[i]).Found? ==> Lower(delegated[i]) != Lower(delegated[j])
  }

  ghost predicate ValidSnapshot(fetch: Fetcher, s: Snapshot) {
    && s.callsMade == |s.delegated|
    && KeysLowerCase(s.cache)
    && CacheSound(fetch, s)
    && CacheComplete(fetch, s)
    && AtMostOneSuccessPerKey(fetch, s.delegated)
  }

  // ---------------------------------------------------------------------
  // One call of getSubBreeds, and a sequence of them
  // ---------------------------------------------------------------------

  /** One call of getSubBreeds(breed) on state s. */
  function Lookup(fetch: Fetcher, s: Snapshot, breed: string): (st: Step)
    // a hit answers from the cache and leaves the state, calls and counter untouched
    ensures Lower(breed) in s.cache ==> st.after == s && st.result == Found(s.cache[Lower(breed)])
    // a miss asks the underlying fetcher once, with the caller's own spelling, and answers what it answered
    ensures Lower(breed) !in s.cache ==>
              && st.after.delegated == s.delegated + [breed]
              && st.after.callsMade == s.callsMade + 1
              && st.result == fetch(breed)
    // existing entries are never overwritten or removed
    ensures forall k :: k in s.cache ==> k in st.after.cache && st.after.cache[k] == s.cache[k]
    // the only entry that can appear is the lookup's own key, holding the answer just returned
    ensures forall k :: k in st.after.cache && k !in s.cache ==> k == Lower(breed) && st.result == Found(st.after.cache[k])
    // a success is cached under the lower-cased key; a failure leaves the cache as it was
    ensures st.result.Found? ==> Lower(breed) in st.after.cache && st.after.cache[Lower(breed)] == st.result.subBreeds
    ensures st.result.NotFound? ==> st.after.cache == s.cache
  {
    var key := Lower(breed);
    if key in s.cache then
      Step(s, Found(s.cache[key]))
    else
      var r := fetch(breed);
      var cache' := if r.Found? then s.cache[key := r.subBreeds] else s.cache;
      Step(Snapshot(cache', s.callsMade + 1, s.delegated + [breed]), r)
  }

  /** The state after calling getSubBreeds once for each name of breeds, in order. */
  function Run(fetch: Fetcher, s: Snapshot, breeds: seq<string>): Snapshot
    decreases |breeds|
  {
    if breeds == [] then s
    else Run(fetch, Lookup(fetch, s, breeds[0]).after, breeds[1..])
  }

  /** The answers of the calls Run makes. */
  function Answers(fetch: Fetcher, s: Snapshot, breeds: seq<string>): (rs: seq<FetchResult>)
    ensures |rs| == |breeds|
    // the i-th answer is what getSubBreeds gives in the state the first i calls left
    ensures forall i :: 0 <= i < |breeds| ==> rs[i] == Lookup(fetch, Run(fetch, s, breeds[..i]), breeds[i]).result
    decreases |breeds|
  {
    if breeds == [] then []
    else
      var st := Lookup(fetch, s, breeds[0]);
      var rest := Answers(fetch, st.after, breeds[1..]);
      assert forall i :: 1 <= i < |breeds| ==> Run(fetch, s, breeds[..i]) == Run(fetch, st.after, breeds[1..][..i - 1]) by {
        forall i | 1 <= i < |breeds| {
          RunPrefixStep(fetch, s, breeds, i);
        }
      }
      [st.result] + rest
  }

  /** Running the first i names is running the first one, then the next i - 1. */
  lemma RunPrefixStep(fetch: Fetcher, s: Snapshot, breeds: seq<string>, i: int)
    requires 1 <= i <= |breeds|
    ensures Run(fetch, s, breeds[..i]) == Run(fetch, Lookup(fetch, s, breeds[0]).after, breeds[1..][..i - 1])
  {
    assert breeds[..i][0] == breeds[0] && breeds[..i][1..] == breeds[1..][..i - 1];
  }

  // ---------------------------------------------------------------------
  // Properties
  // ---------------------------------------------------------------------

  lemma InitialValid(fetch: Fetcher)
    ensures ValidSnapshot(fetch, Initial())
  {
  }

  /** getSubBreeds keeps the invariant. */
  lemma LookupPreservesValid(fetch: Fetcher, s: Snapshot, breed: string)
    requires ValidSnapshot(fetch, s)
    ensures ValidSnapshot(fetch, Lookup(fetch, s, breed).after)
  {
    var key := Lower(breed);
    if key !in s.cache {
      var t := Lookup(fetch, s, breed).after;
      var n := |s.delegated|;
      assert t.delegated[n] == breed;
      assert forall i :: 0 <= i < n ==> t.delegated[i] == s.delegated[i];
      LowerIsLower(breed);
      assert KeysLowerCase(t.cache);
      forall k | k in t.cache
        ensures exists i :: 0 <= i < |t.delegated| && Lower(t.delegated[i]) == k && fetch(t.delegated[i]) == Found(t.cache[k])
      {
        if k in s.cache {
          var i :| 0 <= i < n && Lower(s.delegated[i]) == k && fetch(s.delegated[i]) == Found(s.cache[k]);
          assert t.delegated[i] == s.delegated[i];
        } else {
          assert Lower(t.delegated[n]) == k && fetch(t.delegated[n]) == Found(t.cache[k]);
        }
      }
      assert CacheComplete(fetch, t);
      forall i, j | 0 <= i < j < |t.delegated| && fetch(t.delegated[i]).Found?
        ensures Lower(t.delegated[i]) != Lower(t.delegated[j])
      {
        if j == n {
          assert Lower(s.delegated[i]) in s.cache;
        }
      }
    }
  }

  /** A decorator is a drop-in substitute: when the underlying fetcher itself
      ignores case, every lookup answers exactly what the fetcher would. */
  lemma LookupTransparent(fetch: Fetcher, s: Snapshot, breed: string)
    requires ValidSnapshot(fetch, s)
    requires forall a, b :: Lower(a) == Lower(b) ==> fetch(a) == fetch(b)
    ensures Lookup(fetch, s, breed).result == fetch(breed)
  {
    var key := Lower(breed);
    if key in s.cache {
      var i :| 0 <= i < |s.delegated| && Lower(s.delegated[i]) == key && fetch(s.delegated[i]) == Found(s.cache[key]);
      assert fetch(s.delegated[i]) == fetch(breed);
    }
  }

  /** Any sequence of lookups keeps the invariant. */
  lemma {:induction false} RunPreservesValid(fetch: Fetcher, s: Snapshot, breeds: seq<string>)
    requires ValidSnapshot(fetch, s)
    ensures ValidSnapshot(fetch, Run(fetch, s, breeds))
    decreases |breeds|
  {
    if breeds != [] {
      LookupPreservesValid(fetch, s, breeds[0]);
      RunPreservesValid(fetch, Lookup(fetch, s, breeds[0]).after, breeds[1..]);
    }
  }

  /** Over any sequence of lookups the cache only grows, no entry changes,
      the counter never decreases and earlier calls stay recorded. */
  lemma {:induction false} RunMonotone(fetch: Fetcher, s: Snapshot, breeds: seq<string>)
    ensures var t := Run(fetch, s, breeds);
      && (forall k :: k in s.cache ==> k in t.cache && t.cache[k] == s.cache[k])
      && s.callsMade <= t.callsMade
      && s.delegated <= t.delegated
    decreases |breeds|
  {
    if breeds != [] {
      RunMonotone(fetch, Lookup(fetch, s, breeds[0]).after, breeds[1..]);
    }
  }

  /** Once a breed is cached, looking it up again any number of times, in any
      casing, answers the cached list and asks the underlying fetcher nothing. */
  lemma {:induction false} RepeatedHits(fetch: Fetcher, s: Snapshot, breed: string, variants: seq<string>)
    requires Lower(breed) in s.cache
    requires forall i :: 0 <= i < |variants| ==> EqualIgnoringCase(variants[i], breed)
    ensures Run(fetch, s, variants) == s
    ensures forall i :: 0 <= i < |variants| ==> Answers(fetch, s, variants)[i] == Found(s.cache[Lower(breed)])
    decreases |variants|
  {
    if variants != [] {
      SameKeyIffEqualIgnoringCase(variants[0], breed);
      assert Lookup(fetch, s, variants[0]) == Step(s, Found(s.cache[Lower(breed)]));
      RepeatedHits(fetch, s, breed, variants[1..]);
    }
  }

  /** Looking up B once successfully and then any number of case-variants of
      B from a fresh fetcher costs exactly one underlying call, and every
      call answers the list the underlying fetcher gave for B. */
  lemma OneCallPerBreed(fetch: Fetcher, breed: string, variants: seq<string>)
    requires fetch(breed).Found?
    requires forall i :: 0 <= i < |variants| ==> EqualIgnoringCase(variants[i], breed)
    ensures Run(fetch, Initial(), [breed] + variants).callsMade == 1
    ensures forall i :: 0 <= i < 1 + |variants| ==> Answers(fetch, Initial(), [breed] + variants)[i] == fetch(breed)
  {
    var bs := [breed] + variants;
    var s1 := Lookup(fetch, Initial(), breed).after;
    assert bs[0] == breed && bs[1..] == variants;
    RepeatedHits(fetch, s1, breed, variants);
    forall i | 0 <= i < 1 + |variants|
      ensures Answers(fetch, Initial(), bs)[i] == fetch(breed)
    {
      if i > 0 {
        assert Answers(fetch, Initial(), bs)[i] == Answers(fetch, s1, variants)[i - 1];
      }
    }
  }

  /** Failures are never memoised: two lookups of a name the underlying
      fetcher does not know both ask it, and both fail. */
  lemma FailureRetried(fetch: Fetcher, s: Snapshot, breed: string)
    requires Lower(breed) !in s.cache
    requires fetch(breed) == NotFound
    ensures Run(fetch, s, [breed, breed]).callsMade == s.callsMade + 2
    ensures Run(fetch, s, [breed, breed]).delegated == s.delegated + [breed, breed]
    ensures Run(fetch, s, [breed, breed]).cache == s.cache
    ensures Answers(fetch, s, [breed, breed]) == [NotFound, NotFound]
  {
    var s1 := Lookup(fetch, s, breed).after;
    var s2 := Lookup(fetch, s1, breed).after;
    assert [breed, breed][1..] == [breed];
    assert Run(fetch, s, [breed, breed]) == Run(fetch, s1, [breed]);
    assert Run(fetch, s1, [breed]) == Run(fetch, s2, []);
    assert s2.delegated == s.delegated + [breed] + [breed];
  }

  // ---------------------------------------------------------------------
  // The class
  // ---------------------------------------------------------------------

  class CachingBreedFetcher {
    const underlyingFetcher: Fetcher
    var cache: map<string, seq<string>>
    var callsMade: nat
    /** The names passed to the underlying fetcher, in order. */
    ghost var delegated: seq<string>

    ghost function State(): Snapshot
      reads this
    {
      Snapshot(cache, callsMade, delegated)
    }

    ghost predicate Valid()
      reads this
    {
      ValidSnapshot(underlyingFetcher, State())
    }

    constructor (fetcher: Fetcher)
      ensures Valid()
      ensures underlyingFetcher == fetcher
      ensures State() == Initial()
    {
      underlyingFetcher := fetcher;
      cache := map[];
      callsMade := 0;
      delegated := [];
    }

    method GetSubBreeds(breed: string) returns (r: FetchResult)
      requires Valid()
      modifies this
      ensures Valid()
      ensures State() == Lookup(underlyingFetcher, old(State()), breed).after
      ensures r == Lookup(underlyingFetcher, old(State()), breed).result
      // hits are silent: nothing changes and the underlying fetcher is not asked
      ensures Lower(breed) in old(cache) ==> r == Found(old(cache)[Lower(breed)]) && unchanged(this)
      // a miss is counted once and delegates with the caller's spelling
      ensures Lower(breed) !in old(cache) ==>
                callsMade == old(callsMade) + 1 && delegated == old(delegated) + [breed] && r == underlyingFetcher(breed)
      ensures r.NotFound? ==> cache == old(cache)
    {
      var key := Lower(breed);
      if key in cache {
        return Found(cache[key]);
      }
      LookupPreservesValid(underlyingFetcher, State(), breed);
      callsMade := callsMade + 1;
      delegated := delegated + [breed];
      r := underlyingFetcher(breed);
      if r.Found? {
        cache := cache[key := r.subBreeds];
      }
    }

    /** A pure read of the counter: the number of underlying calls so far. */
    method GetCallsMade() returns (n: nat)
      requires Valid()
      ensures n == callsMade
      ensures n == |delegated|
    {
      n := callsMade;
    }
  }
}
