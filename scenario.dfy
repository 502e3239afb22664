/** A client of the caching fetcher: a source that ignores case and knows one
    breed, asked for "Akita", then "akita", then twice for an unknown breed. */
module Scenario {
  import opened LowerCase
  import opened DogApi

  /** The underlying source: it ignores case itself and knows one breed. */
  function AkitaSource(breed: string): (r: FetchResult)
    ensures r.Found? <==> Lower(breed) == "akita"
  {
    if Lower(breed) == "akita" then Found(["inu"]) else NotFound
  }

  method AkitaThenUnknown() returns (first: FetchResult, second: FetchResult, callsAfterTwo: nat,
                                     third: FetchResult, fourth: FetchResult, callsAtEnd: nat)
    ensures first == Found(["inu"]) && second == Found(["inu"]) && callsAfterTwo == 1
    ensures third == NotFound && fourth == NotFound && callsAtEnd == 3
  {
    var fetcher := new CachingBreedFetcher(AkitaSource);
    assert Lower("Akita") == "akita";
    assert Lower("akita") == "akita";
    assert Lower("unknown") == "unknown";
    first := fetcher.GetSubBreeds("Akita");
    assert fetcher.callsMade == 1 && "akita" in fetcher.cache && fetcher.cache["akita"] == ["inu"];
    second := fetcher.GetSubBreeds("akita");
    callsAfterTwo := fetcher.GetCallsMade();
    third := fetcher.GetSubBreeds("unknown");
    assert fetcher.callsMade == 2 && "unknown" !in fetcher.cache;
    fourth := fetcher.GetSubBreeds("unknown");
    callsAtEnd := fetcher.GetCallsMade();
  }

  /** A source that compares names exactly. */
  function ExactAkitaSource(breed: string): FetchResult {
    if breed == "akita" then Found(["inu"]) else NotFound
  }

  /** A miss delegates the caller's spelling, so with a source that compares
      names exactly, a first lookup of "Akita" fails although "akita" is known. */
  lemma ExactSourceMissesCapitalised()
    ensures Lookup(ExactAkitaSource, Initial(), "Akita").result == NotFound
    ensures Lookup(ExactAkitaSource, Initial(), "akita").result == Found(["inu"])
  {
    assert Lower("Akita") == "akita";
  }
}
