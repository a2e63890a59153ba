/** Step 2 of `run_scraper`: the details of every collected place are
    fetched in table order; failed, non-OK, permanently closed and
    mismatched places are skipped, the others become `Business` records. */
module Details {
  import opened Wrappers
  import opened Text
  import opened Taxonomy
  import opened Fields
  import opened Events
  import opened Collect

  /** The `result` object of a place-details reply. Ratings are in tenths
      of a star; coordinates are carried unchanged and never computed with,
      so they are kept as opaque integers. */
  datatype PlaceDetail = PlaceDetail(
    name: Option<string>,
    formattedAddress: Option<string>,
    formattedPhone: Option<string>,
    internationalPhone: Option<string>,
    website: Option<string>,
    rating: Option<nat>,
    userRatingsTotal: Option<nat>,
    priceLevel: Option<int>,
    openingHours: Option<Hours>,
    editorialOverview: Option<string>,
    latitude: Option<int>,
    longitude: Option<int>,
    url: Option<string>,
    types: seq<string>,
    businessStatus: Option<string>,
    photos: seq<Photo>)

  /** The empty object a reply without `result` stands for. */
  const NoDetail: PlaceDetail :=
    PlaceDetail(None, None, None, None, None, None, None, None, None, None, None, None, None, [], None, [])

  /** A details call raises or replies with a status and maybe a result. */
  datatype DetailCall =
    | DetailRaised(message: string)
    | DetailReturned(status: Option<string>, result: Option<PlaceDetail>)

  /** The reply for a place id; an id without a scripted reply raises. */
  function CallFor(details: map<string, DetailCall>, id: string): DetailCall {
    if id in details then details[id] else DetailRaised("no reply")
  }

  function PlaceOf(call: DetailCall): PlaceDetail {
    match call
    case DetailRaised(_) => NoDetail
    case DetailReturned(_, result) => result.GetOr(NoDetail)
  }

  /** One output row. */
  datatype Business = Business(
    name: string,
    category: string,
    googleTypes: string,
    address: string,
    phone: string,
    website: string,
    rating: Option<nat>,
    reviewsCount: Option<nat>,
    priceLevel: string,
    openingHours: string,
    description: string,
    latitude: Option<int>,
    longitude: Option<int>,
    googleMapsUrl: string,
    photoUrl: string,
    placeId: string)

  const TypeSeparator: string := ", "

  /** The record built for a kept place: its category is resolved from the
      provider's type tags with the discovery category as fallback, and
      each field is normalised as described in `Fields`. */
  function BuildBusiness(placeId: string, category: string, p: PlaceDetail, apiKey: string): (b: Business)
    ensures b.placeId == placeId
    ensures b.category == ResolveCategory(p.types, category)
    ensures b.rating == p.rating && b.reviewsCount == p.userRatingsTotal
    ensures b.phone == Phone(p.internationalPhone, p.formattedPhone)
    ensures b.photoUrl == PhotoUrl(p.photos, apiKey)
    ensures b.priceLevel == PriceLevelToString(p.priceLevel)
    ensures b.openingHours == FormatOpeningHours(p.openingHours)
  {
    Business(
      name := p.name.GetOr(""),
      category := ResolveCategory(p.types, category),
      googleTypes := Join(p.types, TypeSeparator),
      address := p.formattedAddress.GetOr(""),
      phone := Phone(p.internationalPhone, p.formattedPhone),
      website := p.website.GetOr(""),
      rating := p.rating,
      reviewsCount := p.userRatingsTotal,
      priceLevel := PriceLevelToString(p.priceLevel),
      openingHours := FormatOpeningHours(p.openingHours),
      description := p.editorialOverview.GetOr(""),
      latitude := p.latitude,
      longitude := p.longitude,
      googleMapsUrl := p.url.GetOr(""),
      photoUrl := PhotoUrl(p.photos, apiKey),
      placeId := placeId)
  }

  /** What becomes of one collected place. */
  datatype Verdict =
    | FetchFailed(message: string)
    | NotOk
    | Closed(name: string)
    | Mismatch(name: string, googleTypes: string)
    | Kept(business: Business)

  const ClosedStatus: string := "CLOSED_PERMANENTLY"

  /** The fate of one place: kept exactly when its details call replied
      with status OK, it is not permanently closed and it is not a category
      mismatch; a kept place has its own id and the resolved category. */
  function Judge(f: Found, call: DetailCall, apiKey: string): (v: Verdict)
    ensures v.Kept? <==>
      && call.DetailReturned? && call.status == Some("OK")
      && PlaceOf(call).businessStatus != Some(ClosedStatus)
      && !IsMismatch(f.category, PlaceOf(call).types)
    ensures v.Kept? ==>
      v.business.placeId == f.placeId && v.business.category == ResolveCategory(PlaceOf(call).types, f.category)
    ensures v.FetchFailed? <==> call.DetailRaised?
    ensures v.Mismatch? ==> IsMismatch(f.category, PlaceOf(call).types)
  {
    match call
    case DetailRaised(e) => FetchFailed(e)
    case DetailReturned(status, _) =>
      var p := PlaceOf(call);
      if status != Some("OK") then NotOk
      else if p.businessStatus == Some(ClosedStatus) then Closed(p.name.GetOr("?"))
      else if IsMismatch(f.category, p.types) then Mismatch(p.name.GetOr("?"), Join(p.types, TypeSeparator))
      else Kept(BuildBusiness(f.placeId, f.category, p, apiKey))
  }

  /** The lines of place `i` of `n`, all at percent `pct`: the fetch line,
      then the reason it was skipped or the line naming the added place. */
  function StepEvents(v: Verdict, i: nat, n: nat, pct: int): (r: seq<Event>)
    ensures |r| >= 1 && r[0] == Event(FetchingDetails(i, n), Some(pct))
    ensures Percents(r) == if v.Kept? then [pct, pct] else [pct]
  {
    var head := [Event(FetchingDetails(i, n), Some(pct))];
    match v
    case FetchFailed(e) => head + [Event(DetailsFailed(e), None)]
    case NotOk => head
    case Closed(name) => head + [Event(SkippedClosed(name), None)]
    case Mismatch(name, types) => head + [Event(SkippedMismatch(name, types), None)]
    case Kept(b) => head + [Event(Added(i, n, b.name), Some(pct))]
  }

  /** What the detail pass emitted and the records it built. */
  datatype Detailed = Detailed(events: seq<Event>, businesses: seq<Business>)

  /** Kept place `k` of the table became `b`. */
  ghost predicate KeptAt(found: seq<Found>, details: map<string, DetailCall>, apiKey: string, k: nat, b: Business)
    requires k < |found|
  {
    Judge(found[k], CallFor(details, found[k].placeId), apiKey) == Kept(b)
  }

  /** Some place of the table from `i` on became `b`. */
  ghost predicate KeptFrom(found: seq<Found>, details: map<string, DetailCall>, apiKey: string, i: nat, b: Business) {
    exists k :: i <= k < |found| && KeptAt(found, details, apiKey, k, b)
  }

  /** The records the places of a table become, in table order: a place
      whose verdict is `Kept` contributes its record, every other place
      nothing. */
  function KeptSeq(found: seq<Found>, details: map<string, DetailCall>, apiKey: string): seq<Business>
    decreases |found|
  {
    if |found| == 0 then []
    else
      var v := Judge(found[0], CallFor(details, found[0].placeId), apiKey);
      (if v.Kept? then [v.business] else []) + KeptSeq(found[1..], details, apiKey)
  }

  ghost predicate DistinctPlaces(bs: seq<Business>) {
    forall a, b :: 0 <= a < b < |bs| ==> bs[a].placeId != bs[b].placeId
  }

  lemma KeptAtId(found: seq<Found>, details: map<string, DetailCall>, apiKey: string, k: nat, b: Business)
    requires k < |found| && KeptAt(found, details, apiKey, k, b)
    ensures b.placeId == found[k].placeId
  {
  }

  /** One step's percents in front of the rest of the pass. */
  lemma PrependStepClimbs(step: seq<Event>, kept: bool, rest: seq<Event>, i: nat, n: nat, pct: int)
    requires 1 <= i <= n && pct == DetailPct(i, n)
    requires Percents(step) == if kept then [pct, pct] else [pct]
    requires i < n ==> Climbs(Percents(rest), DetailPct(i + 1, n), 95)
    requires i == n ==> rest == []
    ensures Climbs(Percents(step + rest), pct, 95)
  {
    PercentsAppend(step, rest);
    if i < n {
      var mid := DetailPct(i + 1, n);
      assert Climbs(Percents(step), pct, mid) by {
        DetailPctMonotone(i, i + 1, n);
      }
      ClimbsAppend(Percents(step), Percents(rest), pct, mid, 95);
    } else {
      assert Percents(step + rest) == Percents(step);
    }
  }

  /** A record for a fresh id in front of records with distinct ids. */
  lemma PrependDistinct(mine: seq<Business>, rest: seq<Business>, id: string)
    requires |mine| <= 1 && (|mine| == 1 ==> mine[0].placeId == id)
    requires DistinctPlaces(rest)
    requires forall b :: b in rest ==> b.placeId != id
    ensures DistinctPlaces(mine + rest)
  {
    var r := mine + rest;
    forall a, c | 0 <= a < c < |r| ensures r[a].placeId != r[c].placeId {
      assert r[c] == rest[c - |mine|];
      if a < |mine| {
        assert rest[c - |mine|] in rest;
      } else {
        assert r[a] == rest[a - |mine|];
      }
    }
  }

  /** The detail pass from 0-based position `i` of the table on. Its
      percents climb from that place's percent to at most 95; its records
      are the kept places from `i` on, in table order, with distinct ids
      when the table's ids are distinct. */
  function DetailFrom(found: seq<Found>, i: nat, details: map<string, DetailCall>, apiKey: string): (r: Detailed)
    requires i <= |found|
    ensures i < |found| ==> Climbs(Percents(r.events), DetailPct(i + 1, |found|), 95)
    ensures i == |found| ==> r == Detailed([], [])
    ensures |r.businesses| <= |found| - i
    ensures forall b :: b in r.businesses <==> KeptFrom(found, details, apiKey, i, b)
    ensures r.businesses == KeptSeq(found[i..], details, apiKey)
    ensures DistinctIds(found) ==> DistinctPlaces(r.businesses)
    decreases |found| - i
  {
    if i == |found| then Detailed([], [])
    else
      var n := |found|;
      var pct := DetailPct(i + 1, n);
      var v := Judge(found[i], CallFor(details, found[i].placeId), apiKey);
      var step := StepEvents(v, i + 1, n, pct);
      var rest := DetailFrom(found, i + 1, details, apiKey);
      var mine := if v.Kept? then [v.business] else [];
      PrependStepClimbs(step, v.Kept?, rest.events, i + 1, n, pct);
      KeepStep(found, i, details, apiKey, rest.businesses);
      assert found[i..][1..] == found[i + 1..];
      Detailed(step + rest.events, mine + rest.businesses)
  }

  /** The records from `i` on are this place's, if kept, followed by the
      later ones: membership and distinctness carry over one step. */
  lemma KeepStep(found: seq<Found>, i: nat, details: map<string, DetailCall>, apiKey: string, rest: seq<Business>)
    requires i < |found|
    requires forall b :: b in rest <==> KeptFrom(found, details, apiKey, i + 1, b)
    requires DistinctIds(found) ==> DistinctPlaces(rest)
    ensures var v := Judge(found[i], CallFor(details, found[i].placeId), apiKey);
      var mine := if v.Kept? then [v.business] else [];
      && (forall b :: b in mine + rest <==> KeptFrom(found, details, apiKey, i, b))
      && (DistinctIds(found) ==> DistinctPlaces(mine + rest))
  {
    var n := |found|;
    var v := Judge(found[i], CallFor(details, found[i].placeId), apiKey);
    var mine := if v.Kept? then [v.business] else [];
    forall b ensures b in mine + rest <==> KeptFrom(found, details, apiKey, i, b) {
      if b in mine {
        assert KeptAt(found, details, apiKey, i, b);
      } else if b in rest {
        var k :| i + 1 <= k < n && KeptAt(found, details, apiKey, k, b);
      }
      if KeptFrom(found, details, apiKey, i, b) {
        var k :| i <= k < n && KeptAt(found, details, apiKey, k, b);
        if k == i {
          assert b in mine;
        }
      }
    }
    if DistinctIds(found) {
      forall b | b in rest ensures b.placeId != found[i].placeId {
        var k :| i + 1 <= k < n && KeptAt(found, details, apiKey, k, b);
        KeptAtId(found, details, apiKey, k, b);
      }
      PrependDistinct(mine, rest, found[i].placeId);
    }
  }

  /** The detail pass over a non-empty table: its records are the kept
      places in table order. */
  function DetailPass(found: seq<Found>, details: map<string, DetailCall>, apiKey: string): (r: Detailed)
    requires |found| >= 1
    ensures Climbs(Percents(r.events), 45, 95)
    ensures |r.businesses| <= |found|
    ensures forall b :: b in r.businesses <==> KeptFrom(found, details, apiKey, 0, b)
    ensures r.businesses == KeptSeq(found, details, apiKey)
    ensures DistinctIds(found) ==> DistinctPlaces(r.businesses)
  {
    var r := DetailFrom(found, 0, details, apiKey);
    assert found[0..] == found;
    ClimbsWiden(Percents(r.events), DetailPct(1, |found|), 95, 45, 95);
    r
  }
}
