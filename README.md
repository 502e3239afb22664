# Caching breed fetcher, modelled in Dafny

The dog-breed-fetcher repository has one piece of logic: `CachingBreedFetcher`. It is a
memoising decorator around any `BreedFetcher`. `getSubBreeds(breed)` lower-cases the
breed name to get a cache key. On a hit it returns the cached list of sub-breed names and
does not call the wrapped fetcher. On a miss it first increments `callsMade`, then asks the
wrapped fetcher, passing the name as the caller spelled it. If that call returns normally,
its answer is stored under the key and returned. If it throws `BreedNotFoundException`, the
`put` is never reached, so nothing is cached and the exception reaches the caller.
`getCallsMade()` reads the counter.

Files:

- `lower_case.dfy`, module `LowerCase`: the key normalisation. It is ASCII `toLowerCase`,
  with lemmas saying the result is lower-case, normalising is idempotent, and two names
  share a key exactly when they differ only in the case of their letters.
- `caching_breed_fetcher.dfy`, module `DogApi`:
  - `FetchResult` is the fetcher's answer: `Found(subBreeds)` or `NotFound`, which stands
    for the exception.
  - `Fetcher` is the wrapped source, a fixed function from the name to its answer.
  - `Snapshot` is the fetcher's state: the cache, the counter, and a proof-only record of
    the names passed to the wrapped fetcher.
  - `Lookup` is one call of `getSubBreeds` on a `Snapshot`. `Run` and `Answers` make a
    sequence of calls.
  - `ValidSnapshot` is the state invariant, and the lemmas about it are in this module.
  - The class `CachingBreedFetcher` is the imperative model. `cache` is a `map` field and
    `callsMade` is a `nat` field. `GetSubBreeds` changes them in place, and its `ensures` ties
    the new state and the result to `Lookup`. A ghost field `delegated` records the calls
    made to the wrapped fetcher, so "a hit does not call it" and "a miss calls it with the
    original name" can be stated.
- `scenario.dfy`, module `Scenario`: a client over a source that ignores case and knows one
  breed, "akita", with the sub-breed "inu". The client looks up "Akita", then "akita", then
  "unknown" twice, and the method proves the answers and the counts 1 and 3. Because a miss
  delegates the caller's spelling, the first call passes "Akita" to the source. A source that
  compared names exactly would answer `NotFound` to it (`Scenario.ExactSourceMissesCapitalised`).

`LowerCase.SameLetterIgnoringCase`, `LowerCase.EqualIgnoringCase` and `DogApi.Run` are helper
definitions; the lemmas in the table below state the properties about them.
`DogApi.RunPrefixStep` is a helper lemma for `Answers`: it unfolds `Run` once on a prefix.
`Scenario.AkitaSource` (ignores case) and `Scenario.ExactAkitaSource` (compares names exactly)
are test sources that the scenario injects. They are not part of the modelled class.

The state invariant `ValidSnapshot` has five parts:

- the counter equals the number of delegated calls;
- every key is lower-case;
- every cached list is what the wrapped fetcher answered for a name with that key
  (soundness);
- every successful answer is cached (completeness);
- after a success for a key, no name with that key is delegated again.

## Model

| member | source | states |
|---|---|---|
| LowerCase.LowerChar | src/main/java/dogapi/CachingBreedFetcher.java:26 | folding one character gives a character that is not upper-case, and it is either the same character or the other-case form of the same ASCII letter |
| LowerCase.Lower | src/main/java/dogapi/CachingBreedFetcher.java:26 | key normalisation is total (defined for every string, the empty one too) and keeps the length |
| LowerCase.LowerAt | src/main/java/dogapi/CachingBreedFetcher.java:26 | each character of the key is the lower-case form of the character at the same position of the name |
| LowerCase.LowerIsLower | src/main/java/dogapi/CachingBreedFetcher.java:26 | every key contains no upper-case letter |
| LowerCase.LowerFixesLower | src/main/java/dogapi/CachingBreedFetcher.java:26 | a name that is already lower-case is its own key |
| LowerCase.LowerIdempotent | src/main/java/dogapi/CachingBreedFetcher.java:26 | normalising a key again gives the same key |
| LowerCase.SameKeyIffEqualIgnoringCase | src/main/java/dogapi/CachingBreedFetcher.java:26 | two names map to the same key if and only if they differ only in the case of their letters |
| DogApi.Initial | src/main/java/dogapi/CachingBreedFetcher.java:17-22 | a new fetcher has an empty cache, callsMade 0, and has made no calls |
| DogApi.InitialValid | src/main/java/dogapi/CachingBreedFetcher.java:17-22 | the state of a new fetcher satisfies the invariant |
| DogApi.Lookup | src/main/java/dogapi/CachingBreedFetcher.java:25-39 | a hit returns the cached list and changes nothing: no call, no new count. A miss adds exactly 1 to the count, delegates once with the unnormalised name, and returns the delegate's answer. No existing entry is overwritten or removed. The only entry that can appear is the lower-cased key, holding the answer returned. A failure leaves the cache unchanged |
| DogApi.Answers | src/main/java/dogapi/CachingBreedFetcher.java:25-39 | a sequence of lookups gives one answer per lookup. The i-th answer is what one lookup of the i-th name returns in the state the first i lookups left |
| DogApi.LookupPreservesValid | src/main/java/dogapi/CachingBreedFetcher.java:26-39 | one lookup keeps the invariant: counter = number of delegated calls, keys lower-case, cached lists sound and complete, and no key delegated again after it succeeded |
| DogApi.LookupTransparent | src/main/java/dogapi/CachingBreedFetcher.java:15-39 | when the wrapped fetcher itself ignores case, each lookup answers what the wrapped fetcher would, hit or miss |
| DogApi.RunPreservesValid | src/main/java/dogapi/CachingBreedFetcher.java:26-39 | any sequence of lookups keeps the invariant |
| DogApi.RunMonotone | src/main/java/dogapi/CachingBreedFetcher.java:26-38 | over any sequence of lookups, no cache entry changes or disappears, callsMade never decreases, and earlier calls stay recorded |
| DogApi.RepeatedHits | src/main/java/dogapi/CachingBreedFetcher.java:26-31 | once a key is cached, any number of lookups of case-variants of the name leave the whole state unchanged and all return the cached list |
| DogApi.OneCallPerBreed | src/main/java/dogapi/CachingBreedFetcher.java:26-39 | from a new fetcher, one successful lookup of B and then any number of lookups of case-variants of B give callsMade 1, and every lookup returns the list the wrapped fetcher gave for B |
| DogApi.FailureRetried | src/main/java/dogapi/CachingBreedFetcher.java:33-39 | the wrapped fetcher does not know a name that is not cached. Two lookups of that name both delegate with it, both count (+2), both return NotFound, and the cache stays the same |
| DogApi.CachingBreedFetcher.constructor | src/main/java/dogapi/CachingBreedFetcher.java:16-22 | keeps the given fetcher; the cache is empty, callsMade is 0, and the invariant holds |
| DogApi.CachingBreedFetcher.GetSubBreeds | src/main/java/dogapi/CachingBreedFetcher.java:24-40 | keeps the invariant, and the new fields and the result are those of Lookup. On a hit the object is unchanged and the cached list is returned. On a miss the counter rises by 1 and the wrapped fetcher is called once with the caller's spelling. A NotFound leaves the cache unchanged |
| DogApi.CachingBreedFetcher.GetCallsMade | src/main/java/dogapi/CachingBreedFetcher.java:42-44 | changes nothing and returns the counter field, which equals the number of calls made to the wrapped fetcher so far |
| Scenario.ExactSourceMissesCapitalised | src/main/java/dogapi/CachingBreedFetcher.java:26-35 | with a source that compares names exactly and knows "akita", a first lookup of "Akita" answers NotFound and one of "akita" answers ["inu"], because a miss passes the caller's spelling on |
| Scenario.AkitaThenUnknown | src/main/java/dogapi/CachingBreedFetcher.java:20-44 | with that case-insensitive source, "Akita" and then "akita" both return ["inu"] with callsMade 1. "unknown" twice fails both times, and callsMade is then 3 |

## Left out

- The wrapped fetcher is a fixed, total function from the name to `Found` or `NotFound`.
  Real `BreedFetcher` implementations (presumably a network API) and
  `BreedNotFoundException` are not part of this model.
- Exceptions from the delegate other than `BreedNotFoundException`, such as unchecked
  runtime errors, are not modelled. In the code they also skip the `put` after the
  counter was raised, so they would behave exactly like `NotFound`.
- LowerCase.Lower: folds only ASCII `A`-`Z`. Java's `String.toLowerCase()` is Unicode- and
  locale-aware, and it can change the length of a string.
- DogApi.CachingBreedFetcher.GetSubBreeds: `callsMade` is an unbounded `nat`. The Java
  field is an `int`, which would wrap to a negative value after 2^31 - 1 misses.
- Null handling: the constructor (lines 20-22) does no null check, and neither does
  `getSubBreeds`. A Dafny function value cannot be null, so the case does not arise.
- Aliasing: the cached `List` is returned by reference, and a caller could mutate it.
  Answers here are immutable sequences.
- `HashMap` internals and concurrency: the class is unsynchronised and meant for a
  single thread, and each call is modelled as one atomic step.
