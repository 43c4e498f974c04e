/** Tenant routes in Caddy: keyed upserts, reconciliation under faults, and what a listing reads back. */
module Caddy {
  const ID_PREFIX: string := "tenant_"

  /** A route as Caddy stores it; each handler is the list of its upstreams' dial addresses. */
  datatype Route = Route(id: string, hosts: seq<string>, handlers: seq<seq<string>>)

  datatype Tenant = Tenant(subdomain: string, ip: string)

  datatype Settings = Settings(domain: string, port: string)

  function RouteId(subdomain: string): string { ID_PREFIX + subdomain }

  function Built(cfg: Settings, t: Tenant): Route {
    Route(RouteId(t.subdomain), [t.subdomain + "." + cfg.domain], [[t.ip + ":" + cfg.port]])
  }

  // ---- The route list --------------------------------------------------------------------------------------

  /** The routes that carry an id, in order. */
  ghost function WithId(routes: seq<Route>, id: string): seq<Route> {
    if routes == [] then [] else (if routes[0].id == id then [routes[0]] else []) + WithId(routes[1..], id)
  }

  /** The routes whose id is not among `ids`, in order. */
  ghost function Others(routes: seq<Route>, ids: set<string>): seq<Route> {
    if routes == [] then [] else (if routes[0].id in ids then [] else [routes[0]]) + Others(routes[1..], ids)
  }

  /** `DELETE /id/...` takes out the route it finds. */
  function Deleted(routes: seq<Route>, id: string): seq<Route> {
    if routes == [] then [] else if routes[0].id == id then routes[1..] else [routes[0]] + Deleted(routes[1..], id)
  }

  lemma {:induction false} DeletedWithId(routes: seq<Route>, id: string, other: string)
    ensures WithId(Deleted(routes, id), other) ==
      if other == id && WithId(routes, id) != [] then WithId(routes, id)[1..] else WithId(routes, other)
    decreases |routes|
  {
    if routes != [] && routes[0].id != id {
      DeletedWithId(routes[1..], id, other);
      assert Deleted(routes, id)[1..] == Deleted(routes[1..], id);
      assert [] + WithId(routes[1..], id) == WithId(routes[1..], id);
    }
  }

  lemma {:induction false} DeletedOthers(routes: seq<Route>, id: string, ids: set<string>)
    requires id in ids
    ensures Others(Deleted(routes, id), ids) == Others(routes, ids)
    decreases |routes|
  {
    if routes != [] && routes[0].id != id {
      DeletedOthers(routes[1..], id, ids);
      assert Deleted(routes, id)[1..] == Deleted(routes[1..], id);
    }
  }

  lemma {:induction false} AppendedWithId(routes: seq<Route>, r: Route, id: string)
    ensures WithId(routes + [r], id) == WithId(routes, id) + if r.id == id then [r] else []
    decreases |routes|
  {
    if routes == [] {
      assert [r][1..] == [] && routes + [r] == [r];
    } else {
      AppendedWithId(routes[1..], r, id);
      assert (routes + [r])[1..] == routes[1..] + [r];
    }
  }

  lemma {:induction false} AppendedOthers(routes: seq<Route>, r: Route, ids: set<string>)
    requires r.id in ids
    ensures Others(routes + [r], ids) == Others(routes, ids)
    decreases |routes|
  {
    if routes == [] {
      assert [r][1..] == [] && routes + [r] == [r];
    } else {
      AppendedOthers(routes[1..], r, ids);
      assert (routes + [r])[1..] == routes[1..] + [r];
    }
  }

  // ---- The client ------------------------------------------------------------------------------------------

  /** What one upsert leaves under the ids: the deletion may fail, then nothing happens; the addition may fail,
      then the route is gone. */
  ghost predicate Upserted(was: seq<Route>, r: Route, deleteUp: bool, addUp: bool, now: seq<Route>) {
    && (forall id :: id != r.id ==> WithId(now, id) == WithId(was, id))
    && WithId(now, r.id) == (if !deleteUp then WithId(was, r.id) else if !addUp then [] else [r])
  }

  class Client {
    const cfg: Settings
    var routes: seq<Route>

    constructor (cfg: Settings, routes: seq<Route>)
      ensures this.cfg == cfg && this.routes == routes
    {
      this.cfg, this.routes := cfg, routes;
    }

    method AddRoute(t: Tenant, up: bool) returns (ok: bool)
      modifies this
      ensures ok == up && routes == if up then old(routes) + [Built(cfg, t)] else old(routes)
    {
      if up { routes := routes + [Built(cfg, t)]; }
      ok := up;
    }

    /** A route that is not there is no error. */
    method RemoveRoute(subdomain: string, up: bool) returns (ok: bool)
      modifies this
      ensures ok == up && routes == if up then Deleted(old(routes), RouteId(subdomain)) else old(routes)
    {
      if up { routes := Deleted(routes, RouteId(subdomain)); }
      ok := up;
    }

    method UpsertRoute(t: Tenant, deleteUp: bool, addUp: bool) returns (ok: bool)
      requires |WithId(routes, RouteId(t.subdomain))| <= 1
      modifies this
      ensures ok == (deleteUp && addUp)
      ensures Upserted(old(routes), Built(cfg, t), deleteUp, addUp, routes)
      ensures forall ids :: RouteId(t.subdomain) in ids ==> Others(routes, ids) == Others(old(routes), ids)
    {
      ghost var was := routes;
      var removed := RemoveRoute(t.subdomain, deleteUp);
      if !removed { return false; }
      ghost var mid := routes;
      ok := AddRoute(t, addUp);
      forall id ensures WithId(mid, id) == if id == RouteId(t.subdomain) then [] else WithId(was, id)
      {
        DeletedWithId(was, RouteId(t.subdomain), id);
      }
      forall id ensures WithId(routes, id) == WithId(mid, id) + if addUp && RouteId(t.subdomain) == id then [Built(cfg, t)] else []
      {
        if addUp { AppendedWithId(mid, Built(cfg, t), id); }
      }
      forall ids: set<string> | RouteId(t.subdomain) in ids ensures Others(routes, ids) == Others(was, ids) {
        DeletedOthers(was, RouteId(t.subdomain), ids);
        if addUp { AppendedOthers(mid, Built(cfg, t), ids); }
      }
    }

    /** One upsert per tenant; a failing one is counted and the loop goes on. */
    method Reconcile(tenants: seq<Tenant>, listUp: bool, deleteDown: set<nat>, addDown: set<nat>)
      returns (ok: bool, success: nat, failed: nat)
      requires Distinct(tenants) && forall i :: 0 <= i < |tenants| ==> |WithId(routes, RouteId(tenants[i].subdomain))| <= 1
      modifies this
      ensures ok == listUp
      ensures !listUp ==> routes == old(routes)
      ensures listUp ==> success + failed == |tenants| && failed == |Failing(|tenants|, deleteDown, addDown)|
      ensures listUp ==> Reconciled(old(routes), cfg, tenants, deleteDown, addDown, routes)
      ensures Others(routes, Ids(tenants)) == Others(old(routes), Ids(tenants))
    {
      success, failed := 0, 0;
      if !listUp { return false, 0, 0; }
      ghost var was := routes;
      for i := 0 to |tenants|
        invariant success + failed == i && failed == |Failing(i, deleteDown, addDown)|
        invariant Reconciled(was, cfg, tenants[..i], deleteDown, addDown, routes)
        invariant Others(routes, Ids(tenants)) == Others(was, Ids(tenants))
      {
        NotYet(tenants, i, was, cfg, deleteDown, addDown, routes);
        ghost var before := routes;
        var up := UpsertRoute(tenants[i], i !in deleteDown, i !in addDown);
        assert tenants[i] in tenants;
        OneMore(tenants, i, was, cfg, deleteDown, addDown, before, routes);
        if up { success := success + 1; } else { failed := failed + 1; }
        FailingGrows(i, deleteDown, addDown);
      }
      assert tenants[..|tenants|] == tenants;
      ok := true;
    }

    /** `ListRoutes`. */
    method ListRoutes() returns (result: seq<Tenant>)
      ensures result == Listed(routes)
    {
      result := [];
      for i := 0 to |routes|
        invariant result == Listed(routes[..i])
      {
        var r := routes[i];
        ListedGrows(routes[..i], r);
        assert routes[..i + 1] == routes[..i] + [r];
        if !(ID_PREFIX <= r.id) { continue; }
        var targetIP := "";
        if |r.handlers| > 0 && |r.handlers[0]| > 0 {
          var dial := r.handlers[0][0];
          var idx := LastIndex(dial, ':');
          targetIP := if idx > 0 then dial[..idx] else dial;
        }
        result := result + [Tenant(r.id[|ID_PREFIX|..], targetIP)];
      }
      assert routes[..|routes|] == routes;
    }
  }

  // ---- Reconciliation --------------------------------------------------------------------------------------

  ghost predicate Distinct(tenants: seq<Tenant>) {
    forall i, j :: 0 <= i < j < |tenants| ==> tenants[i].subdomain != tenants[j].subdomain
  }

  ghost function Ids(tenants: seq<Tenant>): set<string> { set t | t in tenants :: RouteId(t.subdomain) }

  ghost function Failing(n: nat, deleteDown: set<nat>, addDown: set<nat>): set<nat> {
    set i | 0 <= i < n && (i in deleteDown || i in addDown)
  }

  /** What the list holds under a tenant's id afterwards. */
  ghost function Left(was: seq<Route>, cfg: Settings, t: Tenant, deleteDown: bool, addDown: bool): seq<Route> {
    if deleteDown then WithId(was, RouteId(t.subdomain)) else if addDown then [] else [Built(cfg, t)]
  }

  /** Each tenant's id as its own two calls left it; every other id as it was. */
  ghost predicate Reconciled(was: seq<Route>, cfg: Settings, tenants: seq<Tenant>, deleteDown: set<nat>, addDown: set<nat>, now: seq<Route>) {
    && (forall i :: 0 <= i < |tenants| ==>
        WithId(now, RouteId(tenants[i].subdomain)) == Left(was, cfg, tenants[i], i in deleteDown, i in addDown))
    && (forall id :: id !in Ids(tenants) ==> WithId(now, id) == WithId(was, id))
  }

  lemma SameId(s: string, t: string)
    ensures RouteId(s) == RouteId(t) <==> s == t
  {
    assert RouteId(s)[|ID_PREFIX|..] == s && RouteId(t)[|ID_PREFIX|..] == t;
  }

  lemma NotYet(tenants: seq<Tenant>, i: nat, was: seq<Route>, cfg: Settings, deleteDown: set<nat>, addDown: set<nat>, now: seq<Route>)
    requires i < |tenants| && Distinct(tenants) && Reconciled(was, cfg, tenants[..i], deleteDown, addDown, now)
    ensures RouteId(tenants[i].subdomain) !in Ids(tenants[..i])
    ensures WithId(now, RouteId(tenants[i].subdomain)) == WithId(was, RouteId(tenants[i].subdomain))
  {
    forall j | 0 <= j < i ensures RouteId(tenants[..i][j].subdomain) != RouteId(tenants[i].subdomain) {
      SameId(tenants[j].subdomain, tenants[i].subdomain);
    }
  }

  lemma OneMore(tenants: seq<Tenant>, i: nat, was: seq<Route>, cfg: Settings, deleteDown: set<nat>, addDown: set<nat>,
      before: seq<Route>, now: seq<Route>)
    requires i < |tenants| && Distinct(tenants) && Reconciled(was, cfg, tenants[..i], deleteDown, addDown, before)
    requires Upserted(before, Built(cfg, tenants[i]), i !in deleteDown, i !in addDown, now)
    ensures Reconciled(was, cfg, tenants[..i + 1], deleteDown, addDown, now)
  {
    NotYet(tenants, i, was, cfg, deleteDown, addDown, before);
    forall j | 0 <= j < i + 1
      ensures WithId(now, RouteId(tenants[..i + 1][j].subdomain)) == Left(was, cfg, tenants[..i + 1][j], j in deleteDown, j in addDown)
    {
      if j < i {
        assert tenants[..i][j] == tenants[j];
        SameId(tenants[j].subdomain, tenants[i].subdomain);
      }
    }
    forall id | id !in Ids(tenants[..i + 1]) ensures WithId(now, id) == WithId(was, id) {
      forall t | t in tenants[..i] ensures RouteId(t.subdomain) != id {
        var j :| 0 <= j < i && tenants[..i][j] == t;
        assert tenants[..i + 1][j] == t;
      }
      assert tenants[..i + 1][i] == tenants[i];
    }
  }

  lemma FailingGrows(n: nat, deleteDown: set<nat>, addDown: set<nat>)
    ensures |Failing(n + 1, deleteDown, addDown)| == |Failing(n, deleteDown, addDown)| + if n in deleteDown || n in addDown then 1 else 0
  {
    if n in deleteDown || n in addDown {
      assert Failing(n + 1, deleteDown, addDown) == Failing(n, deleteDown, addDown) + {n};
    } else {
      assert Failing(n + 1, deleteDown, addDown) == Failing(n, deleteDown, addDown);
    }
  }

  /** Without faults every listed tenant has exactly one route, to its address. */
  lemma ReconcileRepairs(was: seq<Route>, cfg: Settings, tenants: seq<Tenant>, now: seq<Route>, i: nat)
    requires i < |tenants| && Reconciled(was, cfg, tenants, {}, {}, now)
    ensures WithId(now, RouteId(tenants[i].subdomain)) == [Built(cfg, tenants[i])]
    ensures WithId(now, "tenant_" + tenants[i].subdomain) ==
      [Route("tenant_" + tenants[i].subdomain, [tenants[i].subdomain + "." + cfg.domain], [[tenants[i].ip + ":" + cfg.port]])]
  {
    assert WithId(now, RouteId(tenants[i].subdomain)) == Left(was, cfg, tenants[i], false, false);
  }

  /** A second run without faults changes nothing but the order of the routes. */
  lemma ReconcileTwice(was: seq<Route>, cfg: Settings, tenants: seq<Tenant>, once: seq<Route>, twice: seq<Route>)
    requires Reconciled(was, cfg, tenants, {}, {}, once) && Reconciled(once, cfg, tenants, {}, {}, twice)
    ensures multiset(twice) == multiset(once)
  {
    forall id ensures WithId(twice, id) == WithId(once, id) {
      if id in Ids(tenants) {
        var t :| t in tenants && RouteId(t.subdomain) == id;
        var i :| 0 <= i < |tenants| && tenants[i] == t;
        ReconcileRepairs(was, cfg, tenants, once, i);
        ReconcileRepairs(once, cfg, tenants, twice, i);
      }
    }
    forall r ensures multiset(twice)[r] == multiset(once)[r] {
      CountById(twice, r);
      CountById(once, r);
    }
  }

  lemma {:induction false} CountById(routes: seq<Route>, r: Route)
    ensures multiset(routes)[r] == multiset(WithId(routes, r.id))[r]
    decreases |routes|
  {
    if routes != [] {
      CountById(routes[1..], r);
      assert routes == [routes[0]] + routes[1..];
    }
  }

  // ---- Reading back ----------------------------------------------------------------------------------------

  /** `strings.LastIndex` for a single character. */
  function LastIndex(s: string, c: char): (i: int)
    ensures -1 <= i < |s|
    ensures i >= 0 ==> s[i] == c
    ensures forall j :: i < j < |s| ==> s[j] != c
  {
    if s == [] then -1 else if s[|s| - 1] == c then |s| - 1 else LastIndex(s[..|s| - 1], c)
  }

  function Target(r: Route): string {
    if r.handlers == [] || r.handlers[0] == [] then ""
    else
      var dial, idx := r.handlers[0][0], LastIndex(r.handlers[0][0], ':');
      if idx > 0 then dial[..idx] else dial
  }

  function Listed(routes: seq<Route>): seq<Tenant> {
    if routes == [] then []
    else (if ID_PREFIX <= routes[0].id then [Tenant(routes[0].id[|ID_PREFIX|..], Target(routes[0]))] else []) + Listed(routes[1..])
  }

  lemma {:induction false} ListedGrows(routes: seq<Route>, r: Route)
    ensures Listed(routes + [r]) == Listed(routes) + if ID_PREFIX <= r.id then [Tenant(r.id[|ID_PREFIX|..], Target(r))] else []
    decreases |routes|
  {
    if routes == [] {
      assert routes + [r] == [r] && [r][1..] == [];
    } else {
      ListedGrows(routes[1..], r);
      assert (routes + [r])[1..] == routes[1..] + [r];
    }
  }

  /** The entries of a listing for a subdomain. */
  ghost function For(listing: seq<Tenant>, subdomain: string): seq<Tenant> {
    if listing == [] then []
    else (if listing[0].subdomain == subdomain then [listing[0]] else []) + For(listing[1..], subdomain)
  }

  lemma {:induction false} ListedById(routes: seq<Route>, subdomain: string)
    ensures For(Listed(routes), subdomain) == For(Listed(WithId(routes, RouteId(subdomain))), subdomain)
    decreases |routes|
  {
    if routes != [] {
      var r, more, id := routes[0], routes[1..], RouteId(subdomain);
      ListedById(more, subdomain);
      if r.id == id {
        assert ([r] + WithId(more, id))[1..] == WithId(more, id);
        assert Listed([r] + WithId(more, id)) == [Tenant(subdomain, Target(r))] + Listed(WithId(more, id));
        assert Listed(routes) == [Tenant(subdomain, Target(r))] + Listed(more);
      } else {
        assert [] + WithId(more, id) == WithId(more, id);
        if ID_PREFIX <= r.id {
          assert r.id == ID_PREFIX + r.id[|ID_PREFIX|..];
          assert Listed(routes)[1..] == Listed(more);
          assert [] + For(Listed(more), subdomain) == For(Listed(more), subdomain);
        } else {
          assert [] + Listed(more) == Listed(more);
        }
      }
    }
  }

  /** A built route reads back its address exactly when the address is not empty and the port has no colon. */
  lemma TargetRoundTrip(cfg: Settings, t: Tenant)
    ensures Target(Built(cfg, t)) == t.ip <==> t.ip != "" && ':' !in cfg.port
  {
    var dial := t.ip + ":" + cfg.port;
    var idx := LastIndex(dial, ':');
    assert dial[|t.ip|] == ':';
    assert forall j :: 0 <= j < |cfg.port| ==> dial[|t.ip| + 1 + j] == cfg.port[j];
    if idx == |t.ip| {
      assert dial[..idx] == t.ip;
    } else {
      assert cfg.port[idx - |t.ip| - 1] == ':';
    }
    if ':' in cfg.port {
      var j :| 0 <= j < |cfg.port| && cfg.port[j] == ':';
      assert dial[|t.ip| + 1 + j] == ':';
    }
  }

  /** A listing holds exactly the routes whose id has the prefix, each with the subdomain behind it and its target; a route
      without an upstream has the empty target. */
  lemma {:induction false} ListedIff(routes: seq<Route>, t: Tenant)
    ensures t in Listed(routes) <==> exists i :: 0 <= i < |routes| && routes[i].id == "tenant_" + t.subdomain && Target(routes[i]) == t.ip
    decreases |routes|
  {
    if routes != [] {
      ListedIff(routes[1..], t);
      PrefixedId(routes[0].id, t.subdomain);
      if exists i :: 0 <= i < |routes[1..]| && routes[1..][i].id == "tenant_" + t.subdomain && Target(routes[1..][i]) == t.ip {
        var i :| 0 <= i < |routes[1..]| && routes[1..][i].id == "tenant_" + t.subdomain && Target(routes[1..][i]) == t.ip;
        assert routes[i + 1] == routes[1..][i];
      }
      if exists i :: 0 <= i < |routes| && routes[i].id == "tenant_" + t.subdomain && Target(routes[i]) == t.ip {
        var i :| 0 <= i < |routes| && routes[i].id == "tenant_" + t.subdomain && Target(routes[i]) == t.ip;
        if i > 0 { assert routes[1..][i - 1] == routes[i]; }
      }
    }
  }

  lemma PrefixedId(id: string, subdomain: string)
    ensures id == "tenant_" + subdomain <==> "tenant_" <= id && id[|"tenant_"|..] == subdomain
  {
    if "tenant_" <= id { assert id == "tenant_" + id[|"tenant_"|..]; }
  }

  /** After a faultless run the listing names each tenant once, with its own address. */
  lemma ListingReadsBack(was: seq<Route>, cfg: Settings, tenants: seq<Tenant>, now: seq<Route>, i: nat)
    requires i < |tenants| && Reconciled(was, cfg, tenants, {}, {}, now)
    requires tenants[i].ip != "" && ':' !in cfg.port
    ensures For(Listed(now), tenants[i].subdomain) == [tenants[i]]
  {
    var t := tenants[i];
    ReconcileRepairs(was, cfg, tenants, now, i);
    ListedById(now, t.subdomain);
    TargetRoundTrip(cfg, t);
    assert [Built(cfg, t)][1..] == [];
    assert Listed([Built(cfg, t)]) == [t] by { assert RouteId(t.subdomain)[|ID_PREFIX|..] == t.subdomain; }
    assert [t][1..] == [];
  }
}
