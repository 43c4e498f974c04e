/** Listing stations by listener count: enrich, rank stably, cut pages. */
module Paging {
  import opened Wrappers

  const DEFAULT_LIMIT: int := 50
  const MAX_LIMIT: int := 200
  const SCAN_LIMIT: int := 1000

  // ---- 64-bit int ------------------------------------------------------------------------------------------

  const INT_MAX: int := 0x7FFF_FFFF_FFFF_FFFF

  /** Addition of two non-negative `int`s. */
  function Add(x: int, y: int): int { if x + y > INT_MAX then x + y - 0x1_0000_0000_0000_0000 else x + y }

  // ---- Request parameters ----------------------------------------------------------------------------------

  /** A query value as `strconv.Atoi` sees it. */
  datatype Value = Absent | NotANumber | Number(n: int)

  function ParseLimit(v: Value): (limit: int)
    ensures 1 <= limit <= MAX_LIMIT
    ensures v.Number? && 1 <= v.n <= 200 ==> limit == v.n
    ensures v.Number? && v.n > 200 ==> limit == 200
    ensures !v.Number? || v.n <= 0 ==> limit == 50
  {
    var n := if v.Number? && v.n > 0 then v.n else DEFAULT_LIMIT;
    if n > MAX_LIMIT then MAX_LIMIT else n
  }

  function ParseOffset(v: Value): (offset: int)
    requires v.Number? ==> v.n <= INT_MAX
    ensures 0 <= offset <= INT_MAX
    ensures v.Number? && 0 <= v.n ==> offset == v.n
    ensures !v.Number? || v.n < 0 ==> offset == 0
  {
    if v.Number? && v.n >= 0 then v.n else 0
  }

  // ---- Stations --------------------------------------------------------------------------------------------

  datatype Station = Station(id: string, tenant: Option<string>, listeners: int)

  /** The live count of its tenant, when the poller has one. */
  function Enriched(st: Station, live: map<string, int>): Station {
    if st.tenant.Some? && st.tenant.value in live then st.(listeners := live[st.tenant.value]) else st
  }

  /** The station with the poller's count for its tenant, if it has a tenant and the poller a count; else as it was. */
  predicate HasLiveCount(was: Station, st: Station, live: map<string, int>) {
    && st.id == was.id && st.tenant == was.tenant
    && st.listeners == (match was.tenant case Some(t) => (if t in live then live[t] else was.listeners) case None => was.listeners)
  }

  function AllEnriched(xs: seq<Station>, live: map<string, int>): seq<Station> {
    seq(|xs|, i requires 0 <= i < |xs| => Enriched(xs[i], live))
  }

  // ---- Ranking ---------------------------------------------------------------------------------------------

  ghost predicate Descending(xs: seq<Station>) {
    forall i, j :: 0 <= i < j < |xs| ==> xs[i].listeners >= xs[j].listeners
  }

  /** The stations with `c` listeners, in order. */
  ghost function WithCount(xs: seq<Station>, c: int): seq<Station> {
    if xs == [] then [] else (if xs[0].listeners == c then [xs[0]] else []) + WithCount(xs[1..], c)
  }

  /** `r` is `xs` in non-increasing listener order with ties as they were. */
  ghost predicate StablyRanked(xs: seq<Station>, r: seq<Station>) {
    Descending(r) && forall c :: WithCount(r, c) == WithCount(xs, c)
  }

  function Insert(r: seq<Station>, x: Station): (s: seq<Station>)
    ensures |s| == |r| + 1
  {
    if r == [] || r[0].listeners < x.listeners then [x] + r else [r[0]] + Insert(r[1..], x)
  }

  /** `sort.SliceStable` with "more listeners first". */
  function Ranked(xs: seq<Station>): (r: seq<Station>)
    ensures |r| == |xs|
  {
    if xs == [] then [] else Insert(Ranked(xs[..|xs| - 1]), xs[|xs| - 1])
  }

  lemma {:induction false} NoneBelow(r: seq<Station>, c: int)
    requires forall i :: 0 <= i < |r| ==> r[i].listeners < c
    ensures WithCount(r, c) == []
    decreases |r|
  {
    if r != [] { NoneBelow(r[1..], c); }
  }

  lemma {:induction false} InsertKeeps(r: seq<Station>, x: Station, c: int)
    requires Descending(r)
    ensures WithCount(Insert(r, x), c) == WithCount(r, c) + if x.listeners == c then [x] else []
    decreases |r|
  {
    if r == [] || r[0].listeners < x.listeners {
      assert ([x] + r)[1..] == r;
      if x.listeners == c { NoneBelow(r, c); }
    } else {
      InsertKeeps(r[1..], x, c);
      assert Insert(r, x)[1..] == Insert(r[1..], x);
    }
  }

  lemma {:induction false} InsertHolds(r: seq<Station>, x: Station)
    ensures multiset(Insert(r, x)) == multiset(r) + multiset{x}
    decreases |r|
  {
    if r == [] || r[0].listeners < x.listeners {
    } else {
      InsertHolds(r[1..], x);
      assert r == [r[0]] + r[1..];
    }
  }

  lemma {:induction false} InsertDescends(r: seq<Station>, x: Station)
    requires Descending(r)
    ensures Descending(Insert(r, x))
    decreases |r|
  {
    if r == [] || r[0].listeners < x.listeners {
    } else {
      InsertDescends(r[1..], x);
      NothingAbove(r[1..], x, r[0].listeners);
    }
  }

  lemma NothingAbove(r: seq<Station>, x: Station, top: int)
    requires x.listeners <= top && forall i :: 0 <= i < |r| ==> r[i].listeners <= top
    ensures forall i :: 0 <= i < |Insert(r, x)| ==> Insert(r, x)[i].listeners <= top
  {
    InsertHolds(r, x);
    forall i | 0 <= i < |Insert(r, x)| ensures Insert(r, x)[i].listeners <= top {
      assert Insert(r, x)[i] in multiset(Insert(r, x));
      assert Insert(r, x)[i] == x || Insert(r, x)[i] in r;
    }
  }

  lemma {:induction false} WithCountOfBoth(xs: seq<Station>, ys: seq<Station>, c: int)
    ensures WithCount(xs + ys, c) == WithCount(xs, c) + WithCount(ys, c)
    decreases |xs|
  {
    if xs == [] {
      assert xs + ys == ys;
    } else {
      WithCountOfBoth(xs[1..], ys, c);
      assert (xs + ys)[1..] == xs[1..] + ys;
      Regroup(if xs[0].listeners == c then [xs[0]] else [], WithCount(xs[1..], c), WithCount(ys, c));
    }
  }

  lemma {:induction false} RankedDescends(xs: seq<Station>)
    ensures Descending(Ranked(xs))
    decreases |xs|
  {
    if xs != [] {
      RankedDescends(xs[..|xs| - 1]);
      InsertDescends(Ranked(xs[..|xs| - 1]), xs[|xs| - 1]);
    }
  }

  lemma {:induction false} RankedHolds(xs: seq<Station>)
    ensures multiset(Ranked(xs)) == multiset(xs)
    decreases |xs|
  {
    hide Insert;
    if xs != [] {
      RankedHolds(xs[..|xs| - 1]);
      InsertHolds(Ranked(xs[..|xs| - 1]), xs[|xs| - 1]);
      LastCounted(xs);
    }
  }

  lemma LastCounted(xs: seq<Station>)
    requires xs != []
    ensures multiset(xs) == multiset(xs[..|xs| - 1]) + multiset{xs[|xs| - 1]}
  {
    assert xs == xs[..|xs| - 1] + [xs[|xs| - 1]];
  }

  lemma {:induction false} RankedKeeps(xs: seq<Station>, c: int)
    ensures WithCount(Ranked(xs), c) == WithCount(xs, c)
    decreases |xs|
  {
    if xs != [] {
      var before, last := xs[..|xs| - 1], xs[|xs| - 1];
      RankedKeeps(before, c);
      RankedDescends(before);
      InsertKeeps(Ranked(before), last, c);
      WithCountOfBoth(before, [last], c);
      assert xs == before + [last];
      assert WithCount([last], c) == if last.listeners == c then [last] else [];
    }
  }

  lemma RankedIsStable(xs: seq<Station>)
    ensures StablyRanked(xs, Ranked(xs)) && multiset(Ranked(xs)) == multiset(xs)
  {
    hide Ranked, WithCount, Descending;
    RankedDescends(xs);
    RankedHolds(xs);
    forall c ensures WithCount(Ranked(xs), c) == WithCount(xs, c) { RankedKeeps(xs, c); }
  }

  /** The two requirements leave one ranking: any stable sort gives the same list. */
  lemma {:induction false} OneRanking(a: seq<Station>, b: seq<Station>)
    requires Descending(a) && Descending(b) && forall c :: WithCount(a, c) == WithCount(b, c)
    ensures a == b
    decreases |a|
  {
    EmptyTogether(a, b);
    EmptyTogether(b, a);
    if a != [] {
      SameHead(a, b);
      forall c ensures WithCount(a[1..], c) == WithCount(b[1..], c) {
        assert WithCount(a, c) == WithCount(b, c);
        assert WithCount(a, c) == (if a[0].listeners == c then [a[0]] else []) + WithCount(a[1..], c);
        assert WithCount(b, c) == (if a[0].listeners == c then [a[0]] else []) + WithCount(b[1..], c);
        if a[0].listeners == c {
          assert WithCount(a, c)[1..] == WithCount(a[1..], c) && WithCount(b, c)[1..] == WithCount(b[1..], c);
        } else {
          assert [] + WithCount(a[1..], c) == WithCount(a[1..], c) && [] + WithCount(b[1..], c) == WithCount(b[1..], c);
        }
      }
      OneRanking(a[1..], b[1..]);
      assert a == [a[0]] + a[1..] && b == [b[0]] + b[1..];
    }
  }

  lemma EmptyTogether(a: seq<Station>, b: seq<Station>)
    requires forall c :: WithCount(a, c) == WithCount(b, c)
    ensures a == [] ==> b == []
  {
    if b != [] { assert WithCount(b, b[0].listeners) != []; }
  }

  /** The head of a ranked list is the first with the highest count. */
  lemma TopFirst(a: seq<Station>, c: int)
    requires a != [] && Descending(a) && a[0].listeners <= c
    ensures if a[0].listeners < c then WithCount(a, c) == [] else WithCount(a, c) != [] && WithCount(a, c)[0] == a[0]
  {
    if a[0].listeners < c { NoneBelow(a, c); }
  }

  lemma SameHead(a: seq<Station>, b: seq<Station>)
    requires a != [] && b != [] && Descending(a) && Descending(b) && forall c :: WithCount(a, c) == WithCount(b, c)
    ensures a[0] == b[0]
  {
    hide WithCount;
    var c := if a[0].listeners >= b[0].listeners then a[0].listeners else b[0].listeners;
    TopFirst(a, c);
    TopFirst(b, c);
    assert WithCount(a, c) == WithCount(b, c);
  }

  // ---- Pages -----------------------------------------------------------------------------------------------

  function Window<T>(items: seq<T>, offset: nat, limit: nat): seq<T> {
    if offset >= |items| then [] else if offset + limit > |items| then items[offset..] else items[offset..offset + limit]
  }

  method PageOf(items: seq<Station>, offset: int, limit: int) returns (page: seq<Station>)
    requires offset >= 0 && limit >= 0 && |items| + limit <= INT_MAX
    ensures page == Window(items, offset, limit)
    ensures |page| == if offset >= |items| then 0 else if |items| - offset < limit then |items| - offset else limit
    ensures forall i :: 0 <= i < |page| ==> page[i] == items[offset + i]
  {
    if offset >= |items| { return []; }
    var end := Add(offset, limit);
    if end > |items| { end := |items|; }
    page := items[offset..end];
  }

  datatype Listing = Listing(items: seq<Station>, total: nat, hasMore: bool)

  /** `ListPublic` for a filter whose matching rows, in store order, are `rows`. */
  function ListPublic(rows: seq<Station>, limit: nat, offset: nat): seq<Station> { Window(rows, offset, limit) }

  /** The whole list that a request pages through. */
  function Pageable(rows: seq<Station>, live: map<string, int>, byListeners: bool): seq<Station> {
    if byListeners then Ranked(AllEnriched(ListPublic(rows, SCAN_LIMIT, 0), live)) else AllEnriched(rows, live)
  }

  /** Live poller data, where there is any, over the scanned slice. */
  method Enrich(stations: array<Station>, live: map<string, int>)
    modifies stations
    ensures stations[..] == AllEnriched(old(stations[..]), live)
    ensures forall k :: 0 <= k < stations.Length ==> HasLiveCount(old(stations[k]), stations[k], live)
  {
    for i := 0 to stations.Length
      invariant forall k :: 0 <= k < i ==> stations[k] == Enriched(old(stations[k]), live)
      invariant forall k :: i <= k < stations.Length ==> stations[k] == old(stations[k])
    {
      if stations[i].tenant.Some? && stations[i].tenant.value in live {
        stations[i] := stations[i].(listeners := live[stations[i].tenant.value]);
      }
    }
  }

  /** What the endpoint answers. */
  function Response(rows: seq<Station>, live: map<string, int>, byListeners: bool, limit: nat, offset: nat): Listing {
    var all := Pageable(rows, live, byListeners);
    Listing(Window(all, offset, limit), |rows|, Add(offset, limit) < |all|)
  }

  method List(rows: seq<Station>, live: map<string, int>, byListeners: bool, limitValue: Value, offsetValue: Value) returns (r: Listing)
    requires |rows| <= INT_MAX && (offsetValue.Number? ==> offsetValue.n <= INT_MAX)
    ensures r == Response(rows, live, byListeners, ParseLimit(limitValue), ParseOffset(offsetValue))
    ensures r.total == |rows|
  {
    var limit, offset := ParseLimit(limitValue), ParseOffset(offsetValue);
    var scanLimit, scanOffset := limit, offset;
    if byListeners { scanLimit, scanOffset := SCAN_LIMIT, 0; }
    var scanned := ListPublic(rows, scanLimit, scanOffset);
    var stations := new Station[|scanned|](i requires 0 <= i < |scanned| => scanned[i]);
    assert stations[..] == scanned;
    Enrich(stations, live);
    var pageable, items := |rows|, stations[..];
    if byListeners {
      items := Ranked(items);
      pageable := |items|;
      items := PageOf(items, offset, limit);
    } else {
      EnrichedPage(rows, live, offset, limit);
    }
    r := Listing(items, |rows|, Add(offset, limit) < pageable);
  }

  lemma EnrichedPage(rows: seq<Station>, live: map<string, int>, offset: nat, limit: nat)
    ensures AllEnriched(Window(rows, offset, limit), live) == Window(AllEnriched(rows, live), offset, limit)
  {
  }

  /** What a client collects that asks at `offset` and goes on while the answers say `has_more`. */
  function Walk(rows: seq<Station>, live: map<string, int>, byListeners: bool, limit: nat, offset: nat): seq<Station>
    requires 1 <= limit && |rows| + limit <= INT_MAX && offset + limit <= INT_MAX
    decreases |rows| - offset
  {
    var r := Response(rows, live, byListeners, limit, offset);
    r.items + if r.hasMore then Walk(rows, live, byListeners, limit, offset + limit) else []
  }

  lemma {:induction false} WalkIsRest(rows: seq<Station>, live: map<string, int>, byListeners: bool, limit: nat, offset: nat)
    requires 1 <= limit && |rows| + limit <= INT_MAX && offset + limit <= INT_MAX && offset <= |Pageable(rows, live, byListeners)|
    ensures Walk(rows, live, byListeners, limit, offset) == Pageable(rows, live, byListeners)[offset..]
    decreases |rows| - offset
  {
    var all := Pageable(rows, live, byListeners);
    if offset + limit < |all| {
      WalkIsRest(rows, live, byListeners, limit, offset + limit);
      assert all[offset..] == all[offset..offset + limit] + all[offset + limit..];
    }
  }

  /** What a listing is made from: the first 1000 rows when ranking by listeners, all of them otherwise. */
  ghost function Scanned(rows: seq<Station>, byListeners: bool): seq<Station> {
    if byListeners && |rows| > 1000 then rows[..1000] else rows
  }

  /** Following `has_more` from the start visits every scanned station exactly once, with its live count: the answers, put
      together, are the scan in stable listener order (or, for the other sorts, every row in store order). */
  lemma PagesCoverTheScan(rows: seq<Station>, live: map<string, int>, byListeners: bool, limit: nat, scan: seq<Station>)
    requires 1 <= limit && |rows| + limit <= INT_MAX
    requires |scan| == |Scanned(rows, byListeners)| && forall i :: 0 <= i < |scan| ==> HasLiveCount(Scanned(rows, byListeners)[i], scan[i], live)
    ensures var all := Walk(rows, live, byListeners, limit, 0);
      multiset(all) == multiset(scan) && if byListeners then StablyRanked(scan, all) else all == scan
  {
    var all := Pageable(rows, live, byListeners);
    WalkIsRest(rows, live, byListeners, limit, 0);
    assert all[0..] == all;
    assert Scanned(rows, true) == ListPublic(rows, SCAN_LIMIT, 0);
    assert scan == AllEnriched(Scanned(rows, byListeners), live);
    if byListeners { RankedIsStable(scan); }
  }

  /** Every single answer, whatever its offset: the stations that rank there, and no more than asked for. */
  lemma PageHoldsItsRanks(rows: seq<Station>, live: map<string, int>, byListeners: bool, limit: nat, offset: nat)
    requires 1 <= limit && |rows| + limit <= INT_MAX
    ensures var r, all := Response(rows, live, byListeners, limit, offset), Walk(rows, live, byListeners, limit, 0);
      && |r.items| == (if offset >= |all| then 0 else if |all| - offset < limit then |all| - offset else limit)
      && forall i :: 0 <= i < |r.items| ==> r.items[i] == all[offset + i]
  {
    WalkIsRest(rows, live, byListeners, limit, 0);
    assert Pageable(rows, live, byListeners)[0..] == Pageable(rows, live, byListeners);
  }

  /** `has_more` says exactly whether the next page holds anything, as long as the sum stays an `int`; beyond
      that it is always claimed, and there is nothing. */
  lemma HasMoreMeansMore(rows: seq<Station>, live: map<string, int>, byListeners: bool, limit: nat, offset: nat)
    requires 1 <= limit <= MAX_LIMIT && offset <= INT_MAX && |rows| <= INT_MAX
    ensures (Response(rows, live, byListeners, limit, offset).hasMore
        <==> Window(Pageable(rows, live, byListeners), offset + limit, limit) != [])
      <==> offset + limit <= INT_MAX
  {
  }
}
