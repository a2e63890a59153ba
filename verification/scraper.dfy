/** `run_scraper`: resolve the selection, locate the centre, collect place
    ids, fetch details and sort, reporting progress on the way. */
module Scraper {
  import opened Wrappers
  import opened Text
  import opened Sorting
  import opened Queries
  import opened Events
  import opened Collect
  import opened Details
  import opened Taxonomy

  const NoCategoriesMessage: string := "No categories selected"

  /** The search centre passed in by the caller; `None` when either
      coordinate is missing, which makes the run geocode the location. */
  datatype Center = Center(latitude: int, longitude: int)

  /** Everything the provider answers during one run: the geocoding result
      (formatted address, or the message it raised), the replies to each
      descriptor's searches, and the details reply per place id. */
  datatype Provider = Provider(
    geocode: Result<string, string>,
    searches: seq<Replies>,
    details: map<string, DetailCall>)

  /** What a run emitted, and the records it returned or the message of
      the exception it raised. */
  datatype Run = Run(events: seq<Event>, result: Result<seq<Business>, string>)

  /** The sort key `(category, -(rating or 0))`; the third component is
      constant. */
  function BusinessKey(b: Business): Key {
    var rating: int := b.rating.GetOr(0);
    Key(b.category, -rating, 0)
  }

  /** Ordered by the key means: category ascending, and within a category
      rating descending with a missing rating counted as 0. */
  lemma SortedByCategoryThenRating(bs: seq<Business>, i: nat, j: nat)
    requires SortedBy(bs, BusinessKey) && i < j < |bs|
    ensures StrLess(bs[i].category, bs[j].category)
      || (bs[i].category == bs[j].category && bs[i].rating.GetOr(0) >= bs[j].rating.GetOr(0))
  {
    var a, b := BusinessKey(bs[i]), BusinessKey(bs[j]);
    assert !KeyLess(b, a);
    KeyLessTotal(a, b);
  }

  /** The steps before the searches: geocoding when no centre is given.
      Yields the lines emitted and the formatted location or the error. */
  function Locate(location: string, center: Option<Center>, geocode: Result<string, string>): (r: (seq<Event>, Result<string, string>))
    ensures center.Some? ==> r == ([], Success(location))
    ensures center.None? ==> |r.0| >= 1 && r.0[0] == Event(Geocoding(location), Some(2))
    ensures center.None? ==> r.1 == geocode
    ensures Climbs(Percents(r.0), 2, 5)
  {
    if center.Some? then ([], Success(location))
    else
      var first := Event(Geocoding(location), Some(2));
      match geocode
      case Failure(e) =>
        assert Percents([first]) == [2];
        ([first], Failure(e))
      case Success(formatted) =>
        var es := [first, Event(FoundLocation(formatted), Some(5))];
        assert es[1..][1..] == [];
        assert Percents(es) == [2, 5];
        (es, Success(formatted))
  }

  /** The records are exactly the places of `found` the detail pass
      keeps. */
  ghost predicate ExactlyKept(bs: seq<Business>, found: seq<Found>, details: map<string, DetailCall>, apiKey: string) {
    forall b :: b in bs <==> KeptFrom(found, details, apiKey, 0, b)
  }

  /** What follows the "Found N unique places" line: the "No places" line
      at 100 for an empty table, or the detail pass and the "Done" line at
      100, returning the kept records sorted. The sort is stable: records
      with the same category and rating keep the table's order. */
  function DetailPhase(found: seq<Found>, details: map<string, DetailCall>, apiKey: string): (r: Run)
    requires DistinctIds(found)
    ensures Climbs(Percents(r.events), 45, 100)
    ensures LastPercent(r.events) == Some(100)
    ensures r.result.Success?
    ensures SortedBy(r.result.value, BusinessKey) && DistinctPlaces(r.result.value)
    ensures ExactlyKept(r.result.value, found, details, apiKey)
    ensures r.result.value == Sort(KeptSeq(found, details, apiKey), BusinessKey)
    ensures forall k :: WithKey(r.result.value, BusinessKey, k) == WithKey(KeptSeq(found, details, apiKey), BusinessKey, k)
  {
    if |found| == 0 then
      assert Percents([Event(NoPlaces, Some(100))]) == [100];
      assert Sort(KeptSeq(found, details, apiKey), BusinessKey) == [];
      Run([Event(NoPlaces, Some(100))], Success([]))
    else
      var d := DetailPass(found, details, apiKey);
      var last := [Event(Done(|d.businesses|), Some(100))];
      assert Percents(last) == [100];
      EventsClimb(d.events, last, 45, 95, 100);
      LastPercentAppend(d.events, last);
      var sorted := Sort(d.businesses, BusinessKey);
      assert forall b :: b in sorted <==> b in d.businesses by {
        forall b ensures b in sorted <==> b in d.businesses {
          assert b in sorted <==> b in multiset(sorted);
          assert b in d.businesses <==> b in multiset(d.businesses);
        }
      }
      SortKeepsDistinct(d.businesses, sorted);
      Run(d.events + last, Success(sorted))
  }

  /** Everything after the centre is known: the "Searching N queries"
      line at 5, the collection phase, the "Found N unique places" line at
      45 and the detail phase. */
  function SearchPhase(queries: seq<Descriptor>, formatted: string, radius: int, provider: Provider, apiKey: string): (r: Run)
    requires |queries| >= 1
    ensures |r.events| >= 1
    ensures Climbs(Percents(r.events), 5, 100)
    ensures r.result.Success? ==> LastPercent(r.events) == Some(100)
    ensures r.result.Success? ==> SortedBy(r.result.value, BusinessKey) && DistinctPlaces(r.result.value)
    ensures r.result.Success? ==>
      var c := CollectPlaces(queries, provider.searches);
      && c.found.Success? && ExactlyKept(r.result.value, c.found.value, provider.details, apiKey)
      && r.result.value == Sort(KeptSeq(c.found.value, provider.details, apiKey), BusinessKey)
  {
    var head := [Event(SearchingAll(|queries|, formatted, radius), Some(5))];
    assert Percents(head) == [5];
    var c := CollectPlaces(queries, provider.searches);
    EventsClimb(head, c.events, 5, 5, 44);
    match c.found
    case Failure(e) =>
      ClimbsWiden(Percents(head + c.events), 5, 44, 5, 100);
      Run(head + c.events, Failure(e))
    case Success(found) =>
      var unique := [Event(FoundUnique(|found|), Some(45))];
      var mid := head + c.events + unique;
      assert Percents(unique) == [45];
      EventsClimb(head + c.events, unique, 5, 44, 45);
      var tail := DetailPhase(found, provider.details, apiKey);
      EventsClimb(mid, tail.events, 5, 45, 100);
      LastPercentAppend(mid, tail.events);
      Run(mid + tail.events, tail.result)
  }

  /** `run_scraper(api_key, location, categories, radius, lat, lng, emit)`.
      With no searches it raises before emitting anything. Otherwise the
      percents it reports never go down and stay in [2, 100], and a run
      that returns ends at 100. The records returned are sorted by
      category and then rating, carry distinct place ids, and are exactly
      the places the detail pass kept from the collected table. */
  function RunScraper(
    apiKey: string, location: string, categories: CategoryInput, radius: int,
    center: Option<Center>, provider: Provider): (r: Run)
    ensures r.events == [] <==> |ResolveSearchQueries(categories)| == 0
    ensures |ResolveSearchQueries(categories)| == 0 ==> r.result == Failure(NoCategoriesMessage)
    ensures Climbs(Percents(r.events), 2, 100)
    ensures r.result.Success? ==> LastPercent(r.events) == Some(100)
    ensures r.result.Success? ==> SortedBy(r.result.value, BusinessKey) && DistinctPlaces(r.result.value)
    ensures r.result.Success? ==>
      var queries := ResolveSearchQueries(categories);
      |queries| >= 1 && CollectPlaces(queries, provider.searches).found.Success?
      && ExactlyKept(r.result.value, CollectPlaces(queries, provider.searches).found.value, provider.details, apiKey)
      && r.result.value == Sort(KeptSeq(CollectPlaces(queries, provider.searches).found.value, provider.details, apiKey), BusinessKey)
  {
    var queries := ResolveSearchQueries(categories);
    if |queries| == 0 then Run([], Failure(NoCategoriesMessage))
    else
      var (pre, located) := Locate(location, center, provider.geocode);
      match located
      case Failure(e) =>
        ClimbsWiden(Percents(pre), 2, 5, 2, 100);
        Run(pre, Failure(e))
      case Success(formatted) =>
        var rest := SearchPhase(queries, formatted, radius, provider, apiKey);
        EventsClimb(pre, rest.events, 2, 5, 100);
        assert rest.result.Success? ==> LastPercent(pre + rest.events) == Some(100) by {
          if rest.result.Success? {
            LastPercentAppend(pre, rest.events);
          }
        }
        Run(pre + rest.events, rest.result)
  }

  /** A permutation of records with distinct ids has distinct ids. */
  lemma SortKeepsDistinct(bs: seq<Business>, ps: seq<Business>)
    requires DistinctPlaces(bs) && multiset(ps) == multiset(bs)
    ensures DistinctPlaces(ps)
  {
    forall a, c | 0 <= a < c < |ps| ensures ps[a].placeId != ps[c].placeId {
      var x, y := ps[a], ps[c];
      assert x in multiset(bs) && y in multiset(bs);
      var i :| 0 <= i < |bs| && bs[i] == x;
      var j :| 0 <= j < |bs| && bs[j] == y;
      if x == y {
        MultisetTwice(ps, a, c);
        assert multiset(bs)[x] >= 2;
        OnceInDistinct(bs, i);
      }
    }
  }

  lemma MultisetTwice<T>(s: seq<T>, a: nat, c: nat)
    requires a < c < |s| && s[a] == s[c]
    ensures multiset(s)[s[a]] >= 2
  {
    var x := s[a];
    assert s == s[..a] + [x] + s[a + 1..c] + [x] + s[c + 1..];
  }

  /** In records with distinct ids each record occurs once. */
  lemma {:induction false} OnceInDistinct(bs: seq<Business>, i: nat)
    requires DistinctPlaces(bs) && i < |bs|
    ensures multiset(bs)[bs[i]] == 1
  {
    var x := bs[i];
    assert bs == bs[..i] + [x] + bs[i + 1..];
    assert x !in multiset(bs[..i]) by {
      assert forall k :: 0 <= k < i ==> bs[..i][k] == bs[k];
    }
    var tail := bs[i + 1..];
    assert x !in multiset(tail) by {
      assert forall k :: 0 <= k < |tail| ==> tail[k] == bs[i + 1 + k];
    }
  }
}
