/** `get_summary`: the counts, the five best-rated places and the preview
    rows the web page shows for a finished run. */
module Summary {
  import opened Wrappers
  import opened Text
  import opened Sorting
  import opened Details
  import opened Lists

  // ---------------------------------------------------------------------
  // Counting by category (`dict(Counter(...))`, first-seen order)
  // ---------------------------------------------------------------------

  datatype CategoryCount = CategoryCount(category: string, count: nat)

  /** How many records have category `c`. */
  function CountOf(bs: seq<Business>, c: string): nat
    decreases |bs|
  {
    if |bs| == 0 then 0
    else CountOf(bs[..|bs| - 1], c) + (if bs[|bs| - 1].category == c then 1 else 0)
  }

  ghost predicate Distinct(cats: seq<string>) {
    forall i, j :: 0 <= i < j < |cats| ==> cats[i] != cats[j]
  }

  /** The categories of `bs`, each once, in order of first appearance. */
  function FirstSeen(bs: seq<Business>): (r: seq<string>)
    ensures Distinct(r)
    ensures forall c :: c in r <==> exists k :: 0 <= k < |bs| && bs[k].category == c
    decreases |bs|
  {
    if |bs| == 0 then []
    else
      var init := bs[..|bs| - 1];
      var p := FirstSeen(init);
      var c := bs[|bs| - 1].category;
      assert forall k :: 0 <= k < |init| ==> init[k] == bs[k];
      if c in p then p else p + [c]
  }

  /** `Counter` keyed in first-seen order. */
  function Counts(bs: seq<Business>): (r: seq<CategoryCount>)
    ensures |r| == |FirstSeen(bs)|
    ensures forall k :: 0 <= k < |r| ==> r[k].category == FirstSeen(bs)[k] && r[k].count == CountOf(bs, r[k].category)
  {
    var cats := FirstSeen(bs);
    seq(|cats|, k requires 0 <= k < |cats| => CategoryCount(cats[k], CountOf(bs, cats[k])))
  }

  function Sum(cs: seq<CategoryCount>): nat
    decreases |cs|
  {
    if |cs| == 0 then 0 else cs[0].count + Sum(cs[1..])
  }

  /** The records counted under the categories of `cats`. */
  function Total(bs: seq<Business>, cats: seq<string>): nat
    decreases |cats|
  {
    if |cats| == 0 then 0 else CountOf(bs, cats[0]) + Total(bs, cats[1..])
  }

  lemma {:induction false} TotalStep(bs: seq<Business>, cats: seq<string>)
    requires |bs| >= 1 && Distinct(cats)
    ensures Total(bs, cats) == Total(bs[..|bs| - 1], cats) + (if bs[|bs| - 1].category in cats then 1 else 0)
    decreases |cats|
  {
    if |cats| > 0 {
      assert Distinct(cats[1..]) by {
        forall i, j | 0 <= i < j < |cats[1..]| ensures cats[1..][i] != cats[1..][j] {
          assert cats[1..][i] == cats[i + 1] && cats[1..][j] == cats[j + 1];
        }
      }
      TotalStep(bs, cats[1..]);
      assert cats == [cats[0]] + cats[1..];
      assert cats[0] !in cats[1..] by {
        forall k | 0 <= k < |cats[1..]| ensures cats[1..][k] != cats[0] {
          assert cats[1..][k] == cats[k + 1];
        }
      }
    }
  }

  lemma {:induction false} TotalAll(bs: seq<Business>, cats: seq<string>)
    requires Distinct(cats)
    requires forall k :: 0 <= k < |bs| ==> bs[k].category in cats
    ensures Total(bs, cats) == |bs|
    decreases |bs|
  {
    if |bs| == 0 {
      TotalNone(bs, cats);
    } else {
      var init := bs[..|bs| - 1];
      assert forall k :: 0 <= k < |init| ==> init[k] == bs[k];
      TotalAll(init, cats);
      TotalStep(bs, cats);
    }
  }

  lemma {:induction false} TotalNone(bs: seq<Business>, cats: seq<string>)
    requires |bs| == 0
    ensures Total(bs, cats) == 0
    decreases |cats|
  {
    if |cats| > 0 {
      TotalNone(bs, cats[1..]);
    }
  }

  lemma {:induction false} SumIsTotal(bs: seq<Business>, cs: seq<CategoryCount>, cats: seq<string>)
    requires |cs| == |cats|
    requires forall k :: 0 <= k < |cs| ==> cs[k].count == CountOf(bs, cats[k])
    ensures Sum(cs) == Total(bs, cats)
    decreases |cs|
  {
    if |cs| > 0 {
      SumIsTotal(bs, cs[1..], cats[1..]);
    }
  }

  /** The counts list every category once, never count zero, and add up to
      the number of records. */
  lemma CountsSumToTotal(bs: seq<Business>)
    ensures Sum(Counts(bs)) == |bs|
    ensures forall i, j :: 0 <= i < j < |Counts(bs)| ==> Counts(bs)[i].category != Counts(bs)[j].category
    ensures forall k :: 0 <= k < |bs| ==> exists m :: 0 <= m < |Counts(bs)| && Counts(bs)[m].category == bs[k].category
    ensures forall m :: 0 <= m < |Counts(bs)| ==> Counts(bs)[m].count >= 1
  {
    var cats := FirstSeen(bs);
    var cs := Counts(bs);
    SumIsTotal(bs, cs, cats);
    TotalAll(bs, cats);
    forall k | 0 <= k < |bs|
      ensures exists m :: 0 <= m < |cs| && cs[m].category == bs[k].category
    {
      var m :| 0 <= m < |cats| && cats[m] == bs[k].category;
      assert cs[m].category == bs[k].category;
    }
    forall m | 0 <= m < |cs| ensures cs[m].count >= 1 {
      assert cats[m] in cats;
      var k :| 0 <= k < |bs| && bs[k].category == cats[m];
      CountOfPositive(bs, k);
    }
  }

  lemma {:induction false} CountOfPositive(bs: seq<Business>, k: nat)
    requires k < |bs|
    ensures CountOf(bs, bs[k].category) >= 1
    decreases |bs|
  {
    var init := bs[..|bs| - 1];
    if k < |bs| - 1 {
      assert init[k] == bs[k];
      CountOfPositive(init, k);
    }
  }

  // ---------------------------------------------------------------------
  // Rated records and the top five
  // ---------------------------------------------------------------------

  /** `[b for b in businesses if b.rating is not None]`; which records it
      keeps, and how often, is `RatedCounts`, and their order is
      `RatedAppend`. */
  function Rated(bs: seq<Business>): (r: seq<Business>)
    ensures |r| <= |bs|
    ensures forall k :: 0 <= k < |r| ==> r[k].rating.Some?
    decreases |bs|
  {
    if |bs| == 0 then []
    else if bs[0].rating.Some? then [bs[0]] + Rated(bs[1..])
    else Rated(bs[1..])
  }

  /** Every record with a rating is kept as often as it occurs, and no
      other record is kept. */
  lemma RatedCounts(bs: seq<Business>, b: Business)
    ensures multiset(Rated(bs))[b] == if b.rating.Some? then multiset(bs)[b] else 0
    ensures b in Rated(bs) <==> b in bs && b.rating.Some?
  {
    RatedCount(bs, b);
    assert b in Rated(bs) <==> b in multiset(Rated(bs));
    assert b in bs <==> b in multiset(bs);
  }

  lemma {:induction false} RatedCount(bs: seq<Business>, b: Business)
    ensures multiset(Rated(bs))[b] == if b.rating.Some? then multiset(bs)[b] else 0
    decreases |bs|
  {
    if |bs| > 0 {
      var h, t := bs[0], bs[1..];
      RatedCount(t, b);
      var one := if h == b then 1 else 0;
      assert bs == [h] + t;
      assert multiset(bs)[b] == one + multiset(t)[b];
      if h.rating.Some? {
        assert Rated(bs) == [h] + Rated(t);
        assert multiset(Rated(bs))[b] == one + multiset(Rated(t))[b];
      } else {
        assert Rated(bs) == Rated(t);
      }
    }
  }

  /** A single record's contribution to `Rated`. */
  function RatedOne(b: Business): seq<Business> {
    if b.rating.Some? then [b] else []
  }

  /** Filtering keeps order: the rated records of a concatenation are
      those of the first part followed by those of the second, and a single
      record is kept exactly when it is rated. */
  lemma RatedAppend(a: seq<Business>, b: seq<Business>)
    ensures Rated(a + b) == Rated(a) + Rated(b)
    ensures |a| == 1 ==> Rated(a) == RatedOne(a[0])
  {
    forall s
      ensures SplitsAtHead(Rated, RatedOne, s)
    {
    }
    AppendByHead(Rated, RatedOne, a, b);
    assert SplitsAtHead(Rated, RatedOne, a);
    if |a| == 1 {
      assert a[1..] == [];
    }
  }

  /** The key `(-rating, -(reviews_count or 0))`; the first component is
      constant. */
  function TopKey(b: Business): Key {
    var rating: int := b.rating.GetOr(0);
    var reviews: int := b.reviewsCount.GetOr(0);
    Key("", -rating, -reviews)
  }

  /** The first `m` records of a sorted permutation of `rated`: rated,
      sorted, and none of the remaining records ranks above them. */
  lemma SortedPrefix(rated: seq<Business>, s: seq<Business>, m: nat)
    requires multiset(s) == multiset(rated) && SortedBy(s, TopKey) && m <= |s|
    requires forall k :: 0 <= k < |rated| ==> rated[k].rating.Some?
    ensures forall k :: 0 <= k < m ==> s[k].rating.Some?
    ensures multiset(s[..m]) <= multiset(rated)
    ensures SortedBy(s[..m], TopKey)
    ensures forall x, k :: x in multiset(rated) - multiset(s[..m]) && 0 <= k < m ==>
      !KeyLess(TopKey(x), TopKey(s[..m][k]))
  {
    var r := s[..m];
    assert s == r + s[m..];
    assert multiset(s) == multiset(r) + multiset(s[m..]);
    forall k | 0 <= k < m ensures s[k].rating.Some? {
      assert s[k] in multiset(rated);
    }
    forall x, k | x in multiset(rated) - multiset(r) && 0 <= k < m
      ensures !KeyLess(TopKey(x), TopKey(r[k]))
    {
      assert x in multiset(s[m..]);
      var j :| 0 <= j < |s[m..]| && s[m..][j] == x;
      assert s[m + j] == x && s[k] == r[k];
    }
  }

  /** `sorted(rated, key=...)[:5]`: at most five rated records, best
      rating first and more reviews first among equal ratings, and no rated
      record left out ranks above any chosen one. */
  function TopRated(bs: seq<Business>): (r: seq<Business>)
    ensures |r| == if |Rated(bs)| < 5 then |Rated(bs)| else 5
    ensures forall k :: 0 <= k < |r| ==> r[k].rating.Some?
    ensures multiset(r) <= multiset(Rated(bs))
    ensures SortedBy(r, TopKey)
    ensures forall x, k :: x in multiset(Rated(bs)) - multiset(r) && 0 <= k < |r| ==>
      !KeyLess(TopKey(x), TopKey(r[k]))
    ensures forall k :: |WithKey(r, TopKey, k)| <= |WithKey(Rated(bs), TopKey, k)|
    ensures forall k :: WithKey(r, TopKey, k) == WithKey(Rated(bs), TopKey, k)[..|WithKey(r, TopKey, k)|]
  {
    var rated := Rated(bs);
    var s := Sort(rated, TopKey);
    var m := if |s| < 5 then |s| else 5;
    SortedPrefix(rated, s, m);
    PrefixKeepsTies(rated, s, m);
    s[..m]
  }

  /** A prefix of a stable sort holds, for each key, the first records of
      that key in the original order. */
  lemma PrefixKeepsTies(rated: seq<Business>, s: seq<Business>, m: nat)
    requires m <= |s|
    requires forall k :: WithKey(s, TopKey, k) == WithKey(rated, TopKey, k)
    ensures forall k :: |WithKey(s[..m], TopKey, k)| <= |WithKey(rated, TopKey, k)|
    ensures forall k :: WithKey(s[..m], TopKey, k) == WithKey(rated, TopKey, k)[..|WithKey(s[..m], TopKey, k)|]
  {
    forall k
      ensures |WithKey(s[..m], TopKey, k)| <= |WithKey(rated, TopKey, k)|
      ensures WithKey(s[..m], TopKey, k) == WithKey(rated, TopKey, k)[..|WithKey(s[..m], TopKey, k)|]
    {
      WithKeyPrefix(s, m, TopKey, k);
    }
  }

  /** Ordered by the top key means: rating descending, then reviews
      descending. */
  lemma TopOrder(r: seq<Business>, i: nat, j: nat)
    requires SortedBy(r, TopKey) && i < j < |r|
    ensures r[i].rating.GetOr(0) > r[j].rating.GetOr(0)
      || (r[i].rating.GetOr(0) == r[j].rating.GetOr(0) && r[i].reviewsCount.GetOr(0) >= r[j].reviewsCount.GetOr(0))
  {
    assert !KeyLess(TopKey(r[j]), TopKey(r[i]));
    StrLessIrreflexive("");
  }

  // ---------------------------------------------------------------------
  // The summary
  // ---------------------------------------------------------------------

  /** One `top5` entry; `reviews` is `reviews_count or 0`. */
  datatype TopEntry = TopEntry(name: string, category: string, rating: nat, reviews: nat)

  /** One preview row of the page's table and map. */
  datatype Preview = Preview(
    name: string, category: string, rating: Option<nat>, reviewsCount: nat,
    phone: string, website: string, address: string,
    latitude: Option<int>, longitude: Option<int>,
    photoUrl: string, googleMapsUrl: string, priceLevel: string)

  /** The summary dict. `businesses` is absent from the summary the worker
      stores for an empty run. */
  datatype Summary = Summary(
    total: nat,
    byCategory: seq<CategoryCount>,
    ratedCount: nat,
    top5: seq<TopEntry>,
    businesses: Option<seq<Preview>>)

  function Entry(b: Business): TopEntry
    requires b.rating.Some?
  {
    TopEntry(b.name, b.category, b.rating.value, b.reviewsCount.GetOr(0))
  }

  /** The entries of a top list, in its order. */
  function Entries(top: seq<Business>): (r: seq<TopEntry>)
    requires forall k :: 0 <= k < |top| ==> top[k].rating.Some?
    requires SortedBy(top, TopKey)
    ensures |r| == |top|
    ensures forall k :: 0 <= k < |top| ==> r[k].name == top[k].name && r[k].category == top[k].category
    ensures forall k :: 0 <= k < |top| ==>
      r[k].rating == top[k].rating.value && r[k].reviews == top[k].reviewsCount.GetOr(0)
    ensures forall i, j :: 0 <= i < j < |r| ==>
      r[i].rating > r[j].rating || (r[i].rating == r[j].rating && r[i].reviews >= r[j].reviews)
  {
    var r := seq(|top|, k requires 0 <= k < |top| => Entry(top[k]));
    assert forall i, j :: 0 <= i < j < |r| ==>
      r[i].rating > r[j].rating || (r[i].rating == r[j].rating && r[i].reviews >= r[j].reviews) by {
      forall i, j | 0 <= i < j < |r|
        ensures r[i].rating > r[j].rating || (r[i].rating == r[j].rating && r[i].reviews >= r[j].reviews)
      {
        TopOrder(top, i, j);
      }
    }
    r
  }

  function PreviewOf(b: Business): Preview {
    Preview(b.name, b.category, b.rating, b.reviewsCount.GetOr(0), b.phone, b.website, b.address,
      b.latitude, b.longitude, b.photoUrl, b.googleMapsUrl, b.priceLevel)
  }

  /** `get_summary(businesses)`. The total is the number of records and the
      category counts add up to it; the rated count is at most the total;
      the top list holds at most five entries ordered by rating and then
      reviews, descending; the preview rows follow the records one to one
      and in order. */
  function GetSummary(bs: seq<Business>): (s: Summary)
    ensures s.total == |bs|
    ensures Sum(s.byCategory) == s.total
    ensures s.ratedCount == |Rated(bs)| && s.ratedCount <= s.total
    ensures s.byCategory == Counts(bs)
    ensures s.top5 == Entries(TopRated(bs))
    ensures |s.top5| <= 5
    ensures forall i, j :: 0 <= i < j < |s.top5| ==>
      s.top5[i].rating > s.top5[j].rating
      || (s.top5[i].rating == s.top5[j].rating && s.top5[i].reviews >= s.top5[j].reviews)
    ensures s.businesses.Some? && |s.businesses.value| == |bs|
    ensures forall k :: 0 <= k < |bs| ==>
      s.businesses.value[k].name == bs[k].name && s.businesses.value[k].category == bs[k].category
  {
    var top := TopRated(bs);
    var entries := Entries(top);
    CountsSumToTotal(bs);
    Summary(|bs|, Counts(bs), |Rated(bs)|, entries,
      Some(seq(|bs|, k requires 0 <= k < |bs| => PreviewOf(bs[k]))))
  }

  /** The summary the worker stores when a run returns no records. */
  const EmptySummary: Summary := Summary(0, [], 0, [], None)
}
