/** The progress log of a run: the lines `run_scraper` and the worker
    report through the progress callback, each with an optional percent,
    and the closed-form percent schedule of the two scraper phases. */
module Events {
  import opened Wrappers

  /** One progress message. The text of each is fixed by the source; only
      the values spliced into it are kept here. */
  datatype Line =
    | Geocoding(location: string)
    | FoundLocation(formatted: string)
    | SearchingAll(queryCount: nat, formatted: string, radius: int)
    | Searching(query: string, category: string)
    | TextSearchFailed(query: string, error: string)
    | ApiStatus(query: string, status: string)
    | FoundUnique(placeCount: nat)
    | NoPlaces
    | FetchingDetails(index: nat, total: nat)
    | DetailsFailed(error: string)
    | SkippedClosed(name: string)
    | SkippedMismatch(name: string, googleTypes: string)
    | Added(index: nat, total: nat, name: string)
    | Done(businessCount: nat)
    | Exported(businessCount: nat)
    | NoBusinesses
    | ErrorLine(error: string)

  /** One call of the progress callback: `emit(msg, pct)`. */
  datatype Event = Event(line: Line, pct: Option<int>)

  /** The percents supplied, in emission order. */
  function Percents(es: seq<Event>): (r: seq<int>)
    ensures |r| <= |es|
    decreases |es|
  {
    if |es| == 0 then []
    else (if es[0].pct.Some? then [es[0].pct.value] else []) + Percents(es[1..])
  }

  /** The lines, in emission order. */
  function Lines(es: seq<Event>): (r: seq<Line>)
    ensures |r| == |es|
    ensures forall i :: 0 <= i < |es| ==> r[i] == es[i].line
    decreases |es|
  {
    if |es| == 0 then [] else [es[0].line] + Lines(es[1..])
  }

  lemma {:induction false} PercentsAppend(a: seq<Event>, b: seq<Event>)
    ensures Percents(a + b) == Percents(a) + Percents(b)
    decreases |a|
  {
    if |a| == 0 {
      assert a + b == b;
    } else {
      PercentsAppend(a[1..], b);
      var h := if a[0].pct.Some? then [a[0].pct.value] else [];
      assert (a + b)[1..] == a[1..] + b;
      assert (a + b)[0] == a[0];
      assert Percents(a) == h + Percents(a[1..]);
      assert Percents(a + b) == h + Percents(a[1..] + b);
      assert h + (Percents(a[1..]) + Percents(b)) == (h + Percents(a[1..])) + Percents(b);
    }
  }

  lemma {:induction false} LinesAppend(a: seq<Event>, b: seq<Event>)
    ensures Lines(a + b) == Lines(a) + Lines(b)
  {
  }

  /** Every value lies in `[lo, hi]` and no value is smaller than one
      before it. */
  ghost predicate Climbs(xs: seq<int>, lo: int, hi: int) {
    && (forall i :: 0 <= i < |xs| ==> lo <= xs[i] <= hi)
    && (forall i, j :: 0 <= i < j < |xs| ==> xs[i] <= xs[j])
  }

  /** Two climbs, the second starting where the first may end, make one. */
  lemma ClimbsAppend(a: seq<int>, b: seq<int>, lo: int, mid: int, hi: int)
    requires lo <= mid <= hi && Climbs(a, lo, mid) && Climbs(b, mid, hi)
    ensures Climbs(a + b, lo, hi)
  {
    var c := a + b;
    forall i | 0 <= i < |c| ensures lo <= c[i] <= hi {
      if i < |a| {
        assert c[i] == a[i];
      } else {
        assert c[i] == b[i - |a|];
      }
    }
    forall i, j | 0 <= i < j < |c| ensures c[i] <= c[j] {
      if j < |a| {
        assert c[i] == a[i] && c[j] == a[j];
      } else if i < |a| {
        assert c[i] == a[i] && c[j] == b[j - |a|];
      } else {
        assert c[i] == b[i - |a|] && c[j] == b[j - |a|];
      }
    }
  }

  /** The percents of two blocks of events, the second climbing from where
      the first may end, climb as one. */
  lemma EventsClimb(a: seq<Event>, b: seq<Event>, lo: int, mid: int, hi: int)
    requires lo <= mid <= hi && Climbs(Percents(a), lo, mid) && Climbs(Percents(b), mid, hi)
    ensures Climbs(Percents(a + b), lo, hi)
  {
    PercentsAppend(a, b);
    ClimbsAppend(Percents(a), Percents(b), lo, mid, hi);
  }

  /** The last percent of `es`, if any. */
  function LastPercent(es: seq<Event>): Option<int> {
    var ps := Percents(es);
    if |ps| == 0 then None else Some(ps[|ps| - 1])
  }

  lemma LastPercentAppend(a: seq<Event>, b: seq<Event>)
    requires LastPercent(b).Some?
    ensures LastPercent(a + b) == LastPercent(b)
  {
    PercentsAppend(a, b);
  }

  /** With one event in front, the last percent falls back to that
      event's percent and then to the default. */
  lemma LastPercentCons(e: Event, rest: seq<Event>, x: int)
    ensures LastPercent([e] + rest).GetOr(x) == LastPercent(rest).GetOr(e.pct.GetOr(x))
  {
    PercentsAppend([e], rest);
    assert [e][1..] == [];
  }

  lemma ClimbsWiden(xs: seq<int>, lo: int, hi: int, lo': int, hi': int)
    requires Climbs(xs, lo, hi) && lo' <= lo && hi <= hi'
    ensures Climbs(xs, lo', hi')
  {
  }

  /** Percents of a block of events that starts with a percent `p` and
      otherwise supplies none. */
  lemma {:induction false} PercentsOfHeaded(p: int, line: Line, rest: seq<Event>)
    requires forall k :: 0 <= k < |rest| ==> rest[k].pct.None?
    ensures Percents([Event(line, Some(p))] + rest) == [p]
    decreases |rest|
  {
    NoPercents(rest);
    assert ([Event(line, Some(p))] + rest)[1..] == rest;
  }

  lemma {:induction false} NoPercents(es: seq<Event>)
    requires forall k :: 0 <= k < |es| ==> es[k].pct.None?
    ensures Percents(es) == []
    decreases |es|
  {
    if |es| > 0 {
      NoPercents(es[1..]);
    }
  }

  // ---------------------------------------------------------------------
  // The percent schedule (idealised as integer floor division)
  // ---------------------------------------------------------------------

  lemma MulCancelLt(x: int, y: int, n: int)
    requires n > 0 && x * n < y * n
    ensures x < y
  {
  }

  lemma DivMonotone(a: int, b: int, n: int)
    requires 0 <= a <= b && n > 0
    ensures a / n <= b / n
  {
    var q, p := a / n, b / n;
    assert a == n * q + a % n;
    assert b == n * p + b % n;
    assert q * n <= a;
    assert b < (p + 1) * n;
    MulCancelLt(q, p + 1, n);
  }

  lemma DivBelow(x: int, k: int, n: int)
    requires 0 <= x < k * n && n > 0
    ensures 0 <= x / n < k
  {
    var q := x / n;
    assert x == n * q + x % n;
    assert q * n <= x < (q + 1) * n;
    MulCancelLt(q, k, n);
    MulCancelLt(0, q + 1, n);
  }

  /** The quotient is the `q` with `q * n <= x < (q + 1) * n`. */
  lemma DivUnique(x: int, n: int, q: int)
    requires n > 0 && q * n <= x < (q + 1) * n
    ensures x / n == q
  {
    var d := x / n;
    assert x == n * d + x % n;
    assert d * n <= x < (d + 1) * n;
    MulCancelLt(d, q + 1, n);
    MulCancelLt(q, d + 1, n);
  }

  /** `base_pct` of the search with 0-based index `qi` out of `n`: from 5
      for the first search, and always below the 45 of the phase after. */
  function SearchPct(qi: nat, n: nat): (r: int)
    requires qi < n
    ensures 5 <= r <= 44
    ensures qi == 0 ==> r == 5
  {
    DivBelow(40 * qi, 40, n);
    5 + 40 * qi / n
  }

  lemma SearchPctMonotone(qi: nat, qj: nat, n: nat)
    requires qi <= qj < n
    ensures SearchPct(qi, n) <= SearchPct(qj, n)
  {
    DivMonotone(40 * qi, 40 * qj, n);
  }

  /** The percent of the detail fetch with 1-based index `i` out of `n`:
      at least 45, and 95 exactly for the last one. */
  function DetailPct(i: nat, n: nat): (r: int)
    requires 1 <= i <= n
    ensures 45 <= r <= 95
    ensures r == 95 <==> i == n
  {
    DetailShare(i, n);
    45 + 50 * i / n
  }

  /** The share `50 * i / n` of the detail phase lies in [0, 50] and is 50
      only for the last place. */
  lemma DetailShare(i: nat, n: nat)
    requires 1 <= i <= n
    ensures 0 <= 50 * i / n <= 50
    ensures 50 * i / n == 50 <==> i == n
  {
    DivUnique(50 * n, n, 50);
    if i < n {
      DivBelow(50 * i, 50, n);
    } else {
      assert 50 * i == 50 * n;
    }
  }

  lemma DetailPctMonotone(i: nat, j: nat, n: nat)
    requires 1 <= i <= j <= n
    ensures DetailPct(i, n) <= DetailPct(j, n)
  {
    DivMonotone(50 * i, 50 * j, n);
  }
}
