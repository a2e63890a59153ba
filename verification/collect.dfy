/** Step 1 of `run_scraper`: every search (text search, then nearby search
    when the descriptor carries a type) is run over at most three result
    pages. The place ids found build an insertion-ordered place-id →
    category table in which the first search to find an id wins. */
module Collect {
  import opened Wrappers
  import opened Taxonomy
  import opened Events

  /** One entry of a search response's `results`. `inRadius` stands for
      the haversine test of its coordinates against the search centre. */
  datatype SearchPlace = SearchPlace(placeId: Option<string>, inRadius: bool)

  /** The JSON body of one search reply. */
  datatype Response = Response(
    status: Option<string>,
    errorMessage: Option<string>,
    results: seq<SearchPlace>,
    nextPageToken: Option<string>)

  /** A provider call either raises a request exception or replies. */
  datatype Call = Raised(message: string) | Returned(response: Response)

  /** The replies one descriptor's searches get, call by call: `text[0]` is
      the first text search, `text[k]` the follow-up for page `k + 1`, and
      likewise for the nearby search. */
  datatype Replies = Replies(text: seq<Call>, nearby: seq<Call>)

  /** The reply to call `k`; calls beyond the script raise. */
  function ReplyAt(calls: seq<Call>, k: nat): Call {
    if k < |calls| then calls[k] else Raised("no reply")
  }

  function RepliesFor(replies: seq<Replies>, qi: nat): Replies {
    if qi < |replies| then replies[qi] else Replies([], [])
  }

  /** Python truthiness of an optional string. */
  predicate Truthy(s: Option<string>) {
    s.Some? && s.value != ""
  }

  const MaxPages: nat := 3

  // ---------------------------------------------------------------------
  // Pagination
  // ---------------------------------------------------------------------

  /** The pages processed from `page` on, `count` being its 1-based page
      number: the next page is fetched while the current one carries a
      next-page token, fewer than three pages have been processed and the
      follow-up call does not raise. */
  function PagesFrom(page: Response, calls: seq<Call>, count: nat): (r: seq<Response>)
    requires 1 <= count <= MaxPages
    ensures 1 <= |r| <= MaxPages + 1 - count
    ensures r[0] == page
    ensures forall k :: 1 <= k < |r| ==> ReplyAt(calls, count + k - 1) == Returned(r[k])
    ensures forall k :: 0 <= k < |r| - 1 ==> Truthy(r[k].nextPageToken)
    ensures Truthy(r[|r| - 1].nextPageToken) && count + |r| - 1 < MaxPages ==>
      ReplyAt(calls, count + |r| - 1).Raised?
    decreases MaxPages - count
  {
    if !Truthy(page.nextPageToken) || count >= MaxPages then [page]
    else
      match ReplyAt(calls, count)
      case Raised(_) => [page]
      case Returned(next) =>
        var rest := PagesFrom(next, calls, count + 1);
        var r := [page] + rest;
        assert forall k :: 1 <= k < |r| ==> r[k] == rest[k - 1];
        r
  }

  /** The pages one search processes, given the replies to its calls and
      the first reply; at most three, and after the first each one is the
      reply to the follow-up call made for it. */
  function Pages(first: Response, calls: seq<Call>): (r: seq<Response>)
    ensures 1 <= |r| <= MaxPages
    ensures r[0] == first
    ensures forall k :: 1 <= k < |r| ==> ReplyAt(calls, k) == Returned(r[k])
  {
    PagesFrom(first, calls, 1)
  }

  // ---------------------------------------------------------------------
  // The place-id table
  // ---------------------------------------------------------------------

  /** One entry of `place_ids`: a place id and the category of the search
      that first found it. */
  datatype Found = Found(placeId: string, category: string)

  ghost predicate DistinctIds(t: seq<Found>) {
    forall i, j :: 0 <= i < j < |t| ==> t[i].placeId != t[j].placeId
  }

  predicate HasId(t: seq<Found>, id: string) {
    exists k :: 0 <= k < |t| && t[k].placeId == id
  }

  /** `place_ids.get(id)`. */
  function Lookup(t: seq<Found>, id: string): (r: Option<string>)
    ensures r.None? <==> !HasId(t, id)
    ensures r.Some? ==> exists k :: 0 <= k < |t| && t[k] == Found(id, r.value)
    decreases |t|
  {
    if |t| == 0 then None
    else if t[0].placeId == id then Some(t[0].category)
    else
      var r := Lookup(t[1..], id);
      assert forall k :: 0 <= k < |t| - 1 ==> t[1..][k] == t[k + 1];
      assert HasId(t, id) ==> HasId(t[1..], id) by {
        if HasId(t, id) {
          var k :| 0 <= k < |t| && t[k].placeId == id;
          assert t[1..][k - 1].placeId == id;
        }
      }
      r
  }

  /** `u` keeps `t` as its first entries and has distinct ids. */
  ghost predicate Extends(t: seq<Found>, u: seq<Found>) {
    |t| <= |u| && u[..|t|] == t && DistinctIds(u)
  }

  /** Every entry of `u` after those of `t` is labelled `category`. */
  ghost predicate AddedAs(t: seq<Found>, u: seq<Found>, category: string) {
    forall k :: |t| <= k < |u| ==> u[k].category == category
  }

  lemma ExtendsTransitive(t: seq<Found>, u: seq<Found>, v: seq<Found>)
    requires Extends(t, u) && Extends(u, v)
    ensures Extends(t, v)
  {
    assert v[..|t|] == v[..|u|][..|t|];
  }

  lemma HasIdExtends(t: seq<Found>, u: seq<Found>, id: string)
    requires |t| <= |u| && u[..|t|] == t && HasId(t, id)
    ensures HasId(u, id)
  {
    var k :| 0 <= k < |t| && t[k].placeId == id;
    assert u[k] == t[k];
  }

  /** Some in-radius result of `places` carries the non-empty `id`. */
  predicate Offers(places: seq<SearchPlace>, id: string) {
    id != "" && exists m :: 0 <= m < |places| && places[m].placeId == Some(id) && places[m].inRadius
  }

  /** Whether a search result is inserted: it has a non-empty id not yet in
      the table and lies within the radius. */
  predicate Admits(t: seq<Found>, p: SearchPlace) {
    Truthy(p.placeId) && !HasId(t, p.placeId.value) && p.inRadius
  }

  /** The table after one search result: one entry more exactly when the
      result is admitted, and that entry has the result's id. */
  function AddPlace(t: seq<Found>, p: SearchPlace, category: string): (r: seq<Found>)
    requires DistinctIds(t)
    ensures Extends(t, r) && |r| <= |t| + 1
    ensures |r| == |t| + 1 <==> Admits(t, p)
    ensures |r| == |t| + 1 ==> r[|t|] == Found(p.placeId.value, category)
    ensures Truthy(p.placeId) && p.inRadius ==> HasId(r, p.placeId.value)
  {
    if Admits(t, p) then
      var r := t + [Found(p.placeId.value, category)];
      assert r[|t|].placeId == p.placeId.value;
      r
    else t
  }

  /** The table after one page's results. Existing entries are kept as
      they are; each new entry has the page's category and comes from an
      in-radius result; every in-radius result with an id ends up in the
      table. */
  function AddPlaces(t: seq<Found>, places: seq<SearchPlace>, category: string): (r: seq<Found>)
    requires DistinctIds(t)
    ensures Extends(t, r) && AddedAs(t, r, category)
    ensures forall k :: |t| <= k < |r| ==> Offers(places, r[k].placeId)
    ensures forall m :: 0 <= m < |places| && Truthy(places[m].placeId) && places[m].inRadius ==>
      HasId(r, places[m].placeId.value)
    decreases |places|
  {
    if |places| == 0 then t
    else
      var p := places[0];
      var t1 := AddPlace(t, p, category);
      var r := AddPlaces(t1, places[1..], category);
      ExtendsTransitive(t, t1, r);
      assert AddedAs(t, r, category) by {
        assert forall k :: |t| <= k < |t1| ==> r[k] == t1[k];
      }
      assert forall k :: |t| <= k < |r| ==> Offers(places, r[k].placeId) by {
        forall k | |t| <= k < |r| ensures Offers(places, r[k].placeId) {
          if k < |t1| {
            assert r[k] == t1[k] && places[0].placeId == Some(t1[|t|].placeId);
          } else {
            OffersTail(places, r[k].placeId);
          }
        }
      }
      assert forall m :: 0 <= m < |places| && Truthy(places[m].placeId) && places[m].inRadius ==>
        HasId(r, places[m].placeId.value) by {
        forall m | 0 <= m < |places| && Truthy(places[m].placeId) && places[m].inRadius
          ensures HasId(r, places[m].placeId.value)
        {
          if m == 0 {
            HasIdExtends(t1, r, p.placeId.value);
          } else {
            assert places[m] == places[1..][m - 1];
          }
        }
      }
      r
  }

  /** What the later results offer, all of them offer. */
  lemma OffersTail(places: seq<SearchPlace>, id: string)
    requires |places| > 0 && Offers(places[1..], id)
    ensures Offers(places, id)
  {
    var m :| 0 <= m < |places[1..]| && places[1..][m].placeId == Some(id) && places[1..][m].inRadius;
    assert places[m + 1] == places[1..][m];
  }

  /** Some page offers `id`: an in-radius result of it carries the id. */
  ghost predicate OfferedBy(pages: seq<Response>, id: string) {
    exists p :: 0 <= p < |pages| && Offers(pages[p].results, id)
  }

  /** After one page the table holds what it held and every id the page
      offers, and nothing else. */
  lemma AddPlacesHas(t: seq<Found>, places: seq<SearchPlace>, category: string, id: string)
    requires DistinctIds(t)
    ensures HasId(AddPlaces(t, places, category), id) <==> HasId(t, id) || Offers(places, id)
  {
    var r := AddPlaces(t, places, category);
    if HasId(r, id) {
      var k :| 0 <= k < |r| && r[k].placeId == id;
      if k < |t| {
        assert r[..|t|][k] == t[k];
      }
    }
    if Offers(places, id) {
      var m :| 0 <= m < |places| && places[m].placeId == Some(id) && places[m].inRadius;
    }
    if HasId(t, id) {
      HasIdExtends(t, r, id);
    }
  }

  /** The pages offer `id` when the first one does or a later one does. */
  lemma OfferedBySplit(pages: seq<Response>, id: string)
    requires |pages| > 0
    ensures OfferedBy(pages, id) <==> Offers(pages[0].results, id) || OfferedBy(pages[1..], id)
  {
    if OfferedBy(pages[1..], id) {
      var p :| 0 <= p < |pages[1..]| && Offers(pages[1..][p].results, id);
      assert pages[1..][p] == pages[p + 1];
    }
    if OfferedBy(pages, id) {
      var p :| 0 <= p < |pages| && Offers(pages[p].results, id);
      if p > 0 {
        assert pages[1..][p - 1] == pages[p];
      }
    }
  }

  /** Two runs of pages offer what either of them offers. */
  lemma OfferedByAppend(a: seq<Response>, b: seq<Response>, id: string)
    ensures OfferedBy(a + b, id) <==> OfferedBy(a, id) || OfferedBy(b, id)
  {
    if OfferedBy(a + b, id) {
      var p :| 0 <= p < |a + b| && Offers((a + b)[p].results, id);
      if p >= |a| {
        assert (a + b)[p] == b[p - |a|];
      }
    }
    if OfferedBy(a, id) {
      var p :| 0 <= p < |a| && Offers(a[p].results, id);
      assert (a + b)[p] == a[p];
    }
    if OfferedBy(b, id) {
      var p :| 0 <= p < |b| && Offers(b[p].results, id);
      assert (a + b)[|a| + p] == b[p];
    }
  }

  /** The table after every page of one search. Each new entry was offered
      by one of the pages, and every id a page offers is in the table. */
  function AddPages(t: seq<Found>, pages: seq<Response>, category: string): (r: seq<Found>)
    requires DistinctIds(t)
    ensures Extends(t, r) && AddedAs(t, r, category)
    ensures forall k :: |t| <= k < |r| ==> OfferedBy(pages, r[k].placeId)
    ensures forall id :: HasId(r, id) <==> HasId(t, id) || OfferedBy(pages, id)
    decreases |pages|
  {
    if |pages| == 0 then t
    else
      var t1 := AddPlaces(t, pages[0].results, category);
      var r := AddPages(t1, pages[1..], category);
      forall id ensures HasId(r, id) <==> HasId(t, id) || OfferedBy(pages, id) {
        AddPlacesHas(t, pages[0].results, category, id);
        OfferedBySplit(pages, id);
      }
      ExtendsTransitive(t, t1, r);
      assert forall k :: |t| <= k < |t1| ==> r[k] == t1[k];
      assert forall k :: |t| <= k < |r| ==> OfferedBy(pages, r[k].placeId) by {
        forall k | |t| <= k < |r| ensures OfferedBy(pages, r[k].placeId) {
          if k < |t1| {
            assert Offers(pages[0].results, r[k].placeId);
          } else {
            var p :| 0 <= p < |pages[1..]| && Offers(pages[1..][p].results, r[k].placeId);
            assert pages[1..][p] == pages[p + 1];
          }
        }
      }
      r
  }

  /** Some reply among `calls` offers `id`. */
  ghost predicate OfferedIn(calls: seq<Call>, id: string) {
    exists c :: 0 <= c < |calls| && calls[c].Returned? && Offers(calls[c].response.results, id)
  }

  /** The pages of a search are replies to its calls, so what they offer,
      a reply offers. */
  lemma PagesOffered(first: Response, calls: seq<Call>, id: string)
    requires ReplyAt(calls, 0) == Returned(first)
    requires OfferedBy(Pages(first, calls), id)
    ensures OfferedIn(calls, id)
  {
    var pages := Pages(first, calls);
    var p :| 0 <= p < |pages| && Offers(pages[p].results, id);
    assert ReplyAt(calls, p) == Returned(pages[p]);
  }

  /** A prefix of a table with distinct ids answers every lookup it can the
      same way: once an id is in the table its category never changes. */
  lemma {:induction false} LookupPrefix(t: seq<Found>, r: seq<Found>, id: string)
    requires DistinctIds(r) && |t| <= |r| && r[..|t|] == t && HasId(t, id)
    ensures Lookup(r, id) == Lookup(t, id)
    decreases |t|
  {
    if t[0].placeId != id {
      assert r[1..][..|t| - 1] == t[1..];
      assert HasId(t[1..], id) by {
        var k :| 0 <= k < |t| && t[k].placeId == id;
        assert t[1..][k - 1].placeId == id;
      }
      assert DistinctIds(r[1..]) by {
        forall i, j | 0 <= i < j < |r[1..]| ensures r[1..][i].placeId != r[1..][j].placeId {
          assert r[1..][i] == r[i + 1] && r[1..][j] == r[j + 1];
        }
      }
      LookupPrefix(t[1..], r[1..], id);
    }
  }

  /** First writer wins: a page never changes the category of an id that
      is already in the table. */
  lemma FirstWriterWins(t: seq<Found>, places: seq<SearchPlace>, category: string, id: string)
    requires DistinctIds(t) && HasId(t, id)
    ensures Lookup(AddPlaces(t, places, category), id) == Lookup(t, id)
  {
    LookupPrefix(t, AddPlaces(t, places, category), id);
  }

  // ---------------------------------------------------------------------
  // One descriptor, and the whole phase
  // ---------------------------------------------------------------------

  const DeniedMessage: string := "API key denied. Check that your key is valid and Places API is enabled. "

  /** What a part of the run emitted, and either its result or the message
      of the exception it raised. */
  datatype Collected = Collected(events: seq<Event>, found: Result<seq<Found>, string>)

  /** The first text search of a descriptor answered REQUEST_DENIED. */
  predicate Denied(rs: Replies) {
    ReplyAt(rs.text, 0).Returned? && ReplyAt(rs.text, 0).response.status == Some("REQUEST_DENIED")
  }

  /** The message the run aborts with on a denied key. */
  function DeniedError(rs: Replies): string {
    match ReplyAt(rs.text, 0)
    case Returned(resp) => DeniedMessage + resp.errorMessage.GetOr("")
    case Raised(_) => DeniedMessage
  }

  /** The search results behind a descriptor's replies offer `id`. */
  ghost predicate Reached(rs: Replies, id: string) {
    OfferedIn(rs.text, id) || OfferedIn(rs.nearby, id)
  }

  /** Every entry of `u` after those of `t` has the descriptor's category
      and was offered within the radius by one of its replies. */
  ghost predicate FoundBy(t: seq<Found>, u: seq<Found>, d: Descriptor, rs: Replies) {
    forall k :: |t| <= k < |u| ==> u[k].category == d.category && Reached(rs, u[k].placeId)
  }

  /** One search over its pages: new entries come from its replies, and
      every id its pages offer is in the table. */
  function SearchPass(t: seq<Found>, first: Response, calls: seq<Call>, category: string): (r: seq<Found>)
    requires DistinctIds(t) && ReplyAt(calls, 0) == Returned(first)
    ensures Extends(t, r) && AddedAs(t, r, category)
    ensures forall k :: |t| <= k < |r| ==> OfferedIn(calls, r[k].placeId)
    ensures forall id :: HasId(r, id) <==> HasId(t, id) || OfferedBy(Pages(first, calls), id)
  {
    var r := AddPages(t, Pages(first, calls), category);
    assert forall k :: |t| <= k < |r| ==> OfferedIn(calls, r[k].placeId) by {
      forall k | |t| <= k < |r| ensures OfferedIn(calls, r[k].placeId) {
        PagesOffered(first, calls, r[k].placeId);
      }
    }
    r
  }

  /** The pages the nearby search processes: none when its first call
      raises. */
  function NearbyPages(calls: seq<Call>): seq<Response> {
    match ReplyAt(calls, 0)
    case Raised(_) => []
    case Returned(first) => Pages(first, calls)
  }

  /** The nearby search for a typed descriptor. Its status is never looked
      at, and only a raising first call is caught (the search is skipped).
      Every id its pages offer is in the table. */
  function NearbyPass(t: seq<Found>, calls: seq<Call>, category: string): (r: seq<Found>)
    requires DistinctIds(t)
    ensures Extends(t, r) && AddedAs(t, r, category)
    ensures forall k :: |t| <= k < |r| ==> OfferedIn(calls, r[k].placeId)
    ensures ReplyAt(calls, 0).Raised? ==> r == t
    ensures forall id :: HasId(r, id) <==> HasId(t, id) || OfferedBy(NearbyPages(calls), id)
  {
    match ReplyAt(calls, 0)
    case Raised(_) => t
    case Returned(first) => SearchPass(t, first, calls, category)
  }

  /** The pages whose results a descriptor's searches go through, in
      order: none when the first text search raises or answers a status
      other than OK and ZERO_RESULTS; otherwise the text search's pages,
      followed by the nearby search's pages when the descriptor has a
      type. */
  function ReadPages(d: Descriptor, rs: Replies): seq<Response> {
    match ReplyAt(rs.text, 0)
    case Raised(_) => []
    case Returned(first) =>
      var status := first.status.GetOr("UNKNOWN");
      if status != "OK" && status != "ZERO_RESULTS" then []
      else Pages(first, rs.text) + (if Truthy(d.placeType) then NearbyPages(rs.nearby) else [])
  }

  /** Python's `a or b` on two optional categories. */
  function OrElse(a: Option<string>, b: Option<string>): Option<string> {
    if a.Some? then a else b
  }

  /** The category a descriptor gives `id` when it is not in the table yet:
      its own, when one of the pages it reads offers the id. */
  ghost function FoundLabel(d: Descriptor, rs: Replies, id: string): Option<string> {
    if OfferedBy(ReadPages(d, rs), id) then Some(d.category) else None
  }

  /** The category of the first descriptor from `qi` on whose pages offer
      `id`, if any. This is stated without any table. */
  ghost function FirstLabel(queries: seq<Descriptor>, replies: seq<Replies>, qi: nat, id: string): Option<string>
    decreases |queries| - qi
  {
    if qi >= |queries| then None
    else OrElse(FoundLabel(queries[qi], RepliesFor(replies, qi), id), FirstLabel(queries, replies, qi + 1, id))
  }

  /** A table that extends `t` with entries labelled `category`, and holds
      exactly what `t` holds and the ids `offered` flags, answers a lookup
      as `t` does, or with `category` for a newly flagged id. */
  lemma LookupAdded(t: seq<Found>, u: seq<Found>, category: string, id: string, offered: bool)
    requires Extends(t, u) && AddedAs(t, u, category)
    requires HasId(u, id) <==> HasId(t, id) || offered
    ensures Lookup(u, id) == OrElse(Lookup(t, id), if offered then Some(category) else None)
  {
    if HasId(t, id) {
      LookupPrefix(t, u, id);
    } else if HasId(u, id) {
      var c := Lookup(u, id).value;
      assert forall i :: 0 <= i < |t| ==> u[i] == u[..|t|][i];
      var k :| 0 <= k < |u| && u[k] == Found(id, c);
    }
  }

  /** The lookups after the searches of a descriptor whose text search
      answered OK or ZERO_RESULTS. */
  lemma ReadLabels(t: seq<Found>, t1: seq<Found>, t2: seq<Found>, d: Descriptor, rs: Replies, first: Response)
    requires DistinctIds(t) && ReplyAt(rs.text, 0) == Returned(first)
    requires first.status.GetOr("UNKNOWN") in {"OK", "ZERO_RESULTS"}
    requires t1 == SearchPass(t, first, rs.text, d.category)
    requires t2 == if Truthy(d.placeType) then NearbyPass(t1, rs.nearby, d.category) else t1
    ensures forall id :: Lookup(t2, id) == OrElse(Lookup(t, id), FoundLabel(d, rs, id))
  {
    var text := Pages(first, rs.text);
    forall id ensures Lookup(t2, id) == OrElse(Lookup(t, id), FoundLabel(d, rs, id)) {
      LookupAdded(t, t1, d.category, id, OfferedBy(text, id));
      if Truthy(d.placeType) {
        LookupAdded(t1, t2, d.category, id, OfferedBy(NearbyPages(rs.nearby), id));
        OfferedByAppend(text, NearbyPages(rs.nearby), id);
      } else {
        assert ReadPages(d, rs) == text + [] == text;
      }
    }
  }

  /** The searches of one descriptor at percent `pct`. A raising text
      search or a status other than OK and ZERO_RESULTS is logged and skips
      the descriptor, nearby search included; REQUEST_DENIED aborts the
      run. */
  function SearchOne(d: Descriptor, replies: Replies, t: seq<Found>, pct: int): (r: Collected)
    requires DistinctIds(t)
    ensures |r.events| >= 1 && r.events[0] == Event(Searching(d.query, d.category), Some(pct))
    ensures forall k :: 1 <= k < |r.events| ==> r.events[k].pct.None?
    ensures r.found.Failure? <==> Denied(replies)
    ensures r.found.Failure? ==> r.found.error == DeniedError(replies)
    ensures r.found.Success? ==> Extends(t, r.found.value) && FoundBy(t, r.found.value, d, replies)
    ensures ReplyAt(replies.text, 0).Raised? ==> r.found == Success(t)
  {
    var head := [Event(Searching(d.query, d.category), Some(pct))];
    match ReplyAt(replies.text, 0)
    case Raised(e) =>
      Collected(head + [Event(TextSearchFailed(d.query, e), None)], Success(t))
    case Returned(first) =>
      var status := first.status.GetOr("UNKNOWN");
      if status == "REQUEST_DENIED" then
        Collected(head, Failure(DeniedMessage + first.errorMessage.GetOr("")))
      else if status != "OK" && status != "ZERO_RESULTS" then
        Collected(head + [Event(ApiStatus(d.query, status), None)], Success(t))
      else
        var t1 := SearchPass(t, first, replies.text, d.category);
        var t2 := if Truthy(d.placeType) then NearbyPass(t1, replies.nearby, d.category) else t1;
        ExtendsTransitive(t, t1, t2);
        assert FoundBy(t, t2, d, replies) by {
          assert forall k :: |t| <= k < |t1| ==> t2[k] == t1[k];
        }
        Collected(head, Success(t2))
  }

  /** Every entry of `u` after those of `t` is labelled with the category
      of one of the descriptors from `qi` on, whose searches offered it
      within the radius. */
  ghost predicate AddedBy(t: seq<Found>, u: seq<Found>, queries: seq<Descriptor>, qi: nat, replies: seq<Replies>) {
    forall k :: |t| <= k < |u| ==> FromSome(u[k], queries, qi, replies)
  }

  /** `f` comes from one of the descriptors from `qi` on. */
  ghost predicate FromSome(f: Found, queries: seq<Descriptor>, qi: nat, replies: seq<Replies>) {
    exists j: nat :: qi <= j && FromQuery(f, queries, j, replies)
  }

  /** `f` has the category of descriptor `j` and its replies offered it. */
  ghost predicate FromQuery(f: Found, queries: seq<Descriptor>, j: nat, replies: seq<Replies>) {
    j < |queries| && f.category == queries[j].category && Reached(RepliesFor(replies, j), f.placeId)
  }

  /** A search step followed by the rest of the searches adds only what
      the two of them add. */
  lemma AddedByStep(t: seq<Found>, t1: seq<Found>, u: seq<Found>, queries: seq<Descriptor>, qi: nat, replies: seq<Replies>)
    requires qi < |queries|
    requires Extends(t, t1) && FoundBy(t, t1, queries[qi], RepliesFor(replies, qi))
    requires Extends(t1, u) && AddedBy(t1, u, queries, qi + 1, replies)
    ensures Extends(t, u) && AddedBy(t, u, queries, qi, replies)
  {
    ExtendsTransitive(t, t1, u);
    forall k | |t| <= k < |u| ensures FromSome(u[k], queries, qi, replies) {
      if k < |t1| {
        assert u[k] == t1[k];
        assert t1[k].category == queries[qi].category && Reached(RepliesFor(replies, qi), t1[k].placeId);
        assert FromQuery(u[k], queries, qi, replies);
      } else {
        assert FromSome(u[k], queries, qi + 1, replies);
        var j: nat :| qi + 1 <= j && FromQuery(u[k], queries, j, replies);
      }
    }
  }

  /** The searches of descriptors `qi` onwards. Percents climb from the
      current descriptor's `base_pct` and stay below 45; a successful pass
      only ever appends to the table; a failed one stopped at a descriptor
      whose key was denied. */
  function SearchFrom(queries: seq<Descriptor>, qi: nat, replies: seq<Replies>, t: seq<Found>): (r: Collected)
    requires qi <= |queries|
    requires DistinctIds(t)
    ensures qi < |queries| ==> Climbs(Percents(r.events), SearchPct(qi, |queries|), 44)
    ensures qi == |queries| ==> r == Collected([], Success(t))
    ensures r.found.Success? ==> Extends(t, r.found.value) && AddedBy(t, r.found.value, queries, qi, replies)
    ensures r.found.Failure? ==>
      exists j :: qi <= j < |queries| && Denied(RepliesFor(replies, j)) && r.found.error == DeniedError(RepliesFor(replies, j))
    decreases |queries| - qi
  {
    if qi == |queries| then Collected([], Success(t))
    else
      var pct := SearchPct(qi, |queries|);
      var step := SearchOne(queries[qi], RepliesFor(replies, qi), t, pct);
      PercentsOfHeaded(pct, Searching(queries[qi].query, queries[qi].category), step.events[1..]);
      assert step.events == [step.events[0]] + step.events[1..];
      assert Percents(step.events) == [pct];
      match step.found
      case Failure(e) => Collected(step.events, Failure(e))
      case Success(t1) =>
        var rest := SearchFrom(queries, qi + 1, replies, t1);
        PercentsAppend(step.events, rest.events);
        assert Climbs([pct] + Percents(rest.events), pct, 44) by {
          if qi + 1 < |queries| {
            SearchPctMonotone(qi, qi + 1, |queries|);
            ClimbsAppend([pct], Percents(rest.events), pct, SearchPct(qi + 1, |queries|), 44);
          } else {
            assert [pct] + Percents(rest.events) == [pct];
          }
        }
        var r := Collected(step.events + rest.events, rest.found);
        assert r.found.Success? ==> Extends(t, r.found.value) && AddedBy(t, r.found.value, queries, qi, replies) by {
          if r.found.Success? {
            AddedByStep(t, t1, r.found.value, queries, qi, replies);
          }
        }
        r
  }

  /** The collection phase: every descriptor in order, from an empty
      table. The ids are distinct and non-empty, and each entry carries
      the category of a descriptor one of whose searches returned it
      within the radius. More precisely, the table holds exactly the ids
      that the pages of some descriptor offer, each with the category of
      the first such descriptor. */
  function CollectPlaces(queries: seq<Descriptor>, replies: seq<Replies>): (r: Collected)
    requires |queries| >= 1
    ensures Climbs(Percents(r.events), 5, 44)
    ensures r.found.Success? ==> DistinctIds(r.found.value)
    ensures r.found.Success? ==> forall k :: 0 <= k < |r.found.value| ==> r.found.value[k].placeId != ""
    ensures r.found.Success? ==> forall k :: 0 <= k < |r.found.value| ==> FromSome(r.found.value[k], queries, 0, replies)
    ensures r.found.Success? ==> forall id :: Lookup(r.found.value, id) == FirstLabel(queries, replies, 0, id)
  {
    var r := SearchFrom(queries, 0, replies, []);
    forall id ensures r.found.Success? ==> Lookup(r.found.value, id) == FirstLabel(queries, replies, 0, id) {
      SearchFromLabels(queries, 0, replies, [], id);
    }
    assert r.found.Success? ==> forall k :: 0 <= k < |r.found.value| ==> r.found.value[k].placeId != "" by {
      if r.found.Success? {
        AddedIdsNonEmpty(r.found.value, queries, replies);
      }
    }
    r
  }

  /** Whatever the searches added was offered, so its id is non-empty. */
  lemma AddedIdsNonEmpty(u: seq<Found>, queries: seq<Descriptor>, replies: seq<Replies>)
    requires AddedBy([], u, queries, 0, replies)
    ensures forall k :: 0 <= k < |u| ==> u[k].placeId != ""
  {
    forall k | 0 <= k < |u| ensures u[k].placeId != "" {
      assert FromSome(u[k], queries, 0, replies);
      var j: nat :| FromQuery(u[k], queries, j, replies);
      ReachedNonEmpty(RepliesFor(replies, j), u[k].placeId);
    }
  }

  /** Only a non-empty id can be offered. */
  lemma ReachedNonEmpty(rs: Replies, id: string)
    requires Reached(rs, id)
    ensures id != ""
  {
    if OfferedIn(rs.text, id) {
      var c :| 0 <= c < |rs.text| && rs.text[c].Returned? && Offers(rs.text[c].response.results, id);
    } else {
      var c :| 0 <= c < |rs.nearby| && rs.nearby[c].Returned? && Offers(rs.nearby[c].response.results, id);
    }
  }

  /** A lookup after the searches of one descriptor answers as before
      them, or with the descriptor's category for an id that a page it
      reads offers. */
  lemma SearchOneLabels(d: Descriptor, replies: Replies, t: seq<Found>, pct: int)
    requires DistinctIds(t)
    ensures var r := SearchOne(d, replies, t, pct);
      r.found.Success? ==>
        forall id :: Lookup(r.found.value, id) == OrElse(Lookup(t, id), FoundLabel(d, replies, id))
  {
    match ReplyAt(replies.text, 0)
    case Raised(_) =>
      assert ReadPages(d, replies) == [];
    case Returned(first) =>
      var status := first.status.GetOr("UNKNOWN");
      if status != "OK" && status != "ZERO_RESULTS" {
        assert ReadPages(d, replies) == [];
      } else {
        var t1 := SearchPass(t, first, replies.text, d.category);
        var t2 := if Truthy(d.placeType) then NearbyPass(t1, replies.nearby, d.category) else t1;
        ReadLabels(t, t1, t2, d, replies, first);
      }
  }

  /** A lookup after the searches from `qi` on answers as before them, or
      with the category of the first of those descriptors whose pages
      offer the id. */
  lemma {:induction false} SearchFromLabels(queries: seq<Descriptor>, qi: nat, replies: seq<Replies>, t: seq<Found>, id: string)
    requires qi <= |queries| && DistinctIds(t)
    ensures var r := SearchFrom(queries, qi, replies, t);
      r.found.Success? ==> Lookup(r.found.value, id) == OrElse(Lookup(t, id), FirstLabel(queries, replies, qi, id))
    decreases |queries| - qi
  {
    if qi < |queries| {
      var step := SearchOne(queries[qi], RepliesFor(replies, qi), t, SearchPct(qi, |queries|));
      if step.found.Success? {
        SearchOneLabels(queries[qi], RepliesFor(replies, qi), t, SearchPct(qi, |queries|));
        SearchFromLabels(queries, qi + 1, replies, step.found.value, id);
      }
    }
  }

  lemma {:induction false} FirstLabelAt(queries: seq<Descriptor>, replies: seq<Replies>, qi: nat, j: nat, id: string)
    requires qi <= j < |queries|
    requires OfferedBy(ReadPages(queries[j], RepliesFor(replies, j)), id)
    requires forall i :: qi <= i < j ==> !OfferedBy(ReadPages(queries[i], RepliesFor(replies, i)), id)
    ensures FirstLabel(queries, replies, qi, id) == Some(queries[j].category)
    decreases j - qi
  {
    if qi < j {
      FirstLabelAt(queries, replies, qi + 1, j, id);
    }
  }

  lemma {:induction false} FirstLabelSome(queries: seq<Descriptor>, replies: seq<Replies>, qi: nat, j: nat, id: string)
    requires qi <= j < |queries|
    requires OfferedBy(ReadPages(queries[j], RepliesFor(replies, j)), id)
    ensures FirstLabel(queries, replies, qi, id).Some?
    decreases j - qi
  {
    var here := FoundLabel(queries[qi], RepliesFor(replies, qi), id);
    assert FirstLabel(queries, replies, qi, id) == OrElse(here, FirstLabel(queries, replies, qi + 1, id));
    if qi < j {
      FirstLabelSome(queries, replies, qi + 1, j, id);
    } else {
      assert here == Some(queries[j].category);
    }
  }

  lemma {:induction false} FirstLabelNone(queries: seq<Descriptor>, replies: seq<Replies>, qi: nat, id: string)
    requires forall i :: qi <= i < |queries| ==> !OfferedBy(ReadPages(queries[i], RepliesFor(replies, i)), id)
    ensures FirstLabel(queries, replies, qi, id) == None
    decreases |queries| - qi
  {
    if qi < |queries| {
      FirstLabelNone(queries, replies, qi + 1, id);
    }
  }

  /** Every id that a page read by some descriptor offers is in the
      collected table. */
  lemma CollectFindsOffered(queries: seq<Descriptor>, replies: seq<Replies>, j: nat, id: string)
    requires j < |queries|
    requires OfferedBy(ReadPages(queries[j], RepliesFor(replies, j)), id)
    ensures var r := CollectPlaces(queries, replies);
      r.found.Success? ==> HasId(r.found.value, id)
  {
    FirstLabelSome(queries, replies, 0, j, id);
  }

  /** An id that no page read by any descriptor offers is not in the
      collected table. */
  lemma CollectOnlyOffered(queries: seq<Descriptor>, replies: seq<Replies>, id: string)
    requires |queries| >= 1
    requires forall i :: 0 <= i < |queries| ==> !OfferedBy(ReadPages(queries[i], RepliesFor(replies, i)), id)
    ensures var r := CollectPlaces(queries, replies);
      r.found.Success? ==> !HasId(r.found.value, id)
  {
    FirstLabelNone(queries, replies, 0, id);
  }

  /** The first descriptor whose pages offer an id labels it: later
      descriptors that find it again do not change its category. */
  lemma FirstFinderWins(queries: seq<Descriptor>, replies: seq<Replies>, j: nat, id: string)
    requires j < |queries|
    requires OfferedBy(ReadPages(queries[j], RepliesFor(replies, j)), id)
    requires forall i :: 0 <= i < j ==> !OfferedBy(ReadPages(queries[i], RepliesFor(replies, i)), id)
    ensures var r := CollectPlaces(queries, replies);
      r.found.Success? ==> Lookup(r.found.value, id) == Some(queries[j].category)
  {
    FirstLabelAt(queries, replies, 0, j, id);
  }
}
