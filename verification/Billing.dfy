/** Stripe billing: webhook deliveries as a fold over events, and the two price maps. */
module Billing {
  import opened Wrappers

  const FREE: string := "free"

  // ---- Rows, events, deliveries ----------------------------------------------------------------------------

  /** The billing columns of a tenant. */
  datatype Row = Row(customer: Option<string>, subscription: Option<string>, tier: string)

  type Rows = map<string, Row>

  /** What does not change while events arrive: whose tenants are whose (newest first), the order in which the
      store meets tenants when it looks for a customer, and the price list turned around. */
  datatype Setting = Setting(owned: map<string, seq<string>>, scan: seq<string>, tiers: map<string, string>)

  datatype Event =
    | Unparseable
    | Checkout(user: string, tier: string, customer: string, subscription: string)
    | Updated(id: string, customer: string, status: string, price: string)
    | Deleted(customer: string)
    | Other

  datatype Fault = NoFault | LookupFails | WriteFails

  datatype Delivery = Delivery(event: Event, fault: Fault)

  /** 200, or 500 to have the event delivered again. */
  datatype Reply = Accepted | Retry

  // ---- One delivery ----------------------------------------------------------------------------------------

  predicate Terminal(status: string) { status == "canceled" || status == "unpaid" || status == "incomplete_expired" }

  predicate Live(status: string) { status == "active" || status == "trialing" }

  function TierOfPrice(tiers: map<string, string>, price: string): string {
    if price in tiers then tiers[price] else FREE
  }

  /** The billing columns an event decides on, if it decides anything. */
  function Decision(ctx: Setting, e: Event): Option<Row> {
    match e
    case Checkout(user, tier, customer, subscription) =>
      if user == "" || tier == "" then None else Some(Row(Some(customer), Some(subscription), tier))
    case Updated(id, customer, status, price) =>
      if Terminal(status) then Some(Row(Some(customer), Some(""), FREE))
      else if Live(status) then Some(Row(Some(customer), Some(id), TierOfPrice(ctx.tiers, price)))
      else None
    case Deleted(customer) => Some(Row(Some(customer), Some(""), FREE))
    case _ => None
  }

  /** The first tenant in scan order that carries the customer. */
  function ByCustomer(rows: Rows, scan: seq<string>, customer: string): Option<string> {
    if scan == [] then None
    else if scan[0] in rows && rows[scan[0]].customer == Some(customer) then Some(scan[0])
    else ByCustomer(rows, scan[1..], customer)
  }

  /** The tenant an event is about. */
  function Target(ctx: Setting, rows: Rows, e: Event): Option<string> {
    match e
    case Checkout(user, _, _, _) => if user in ctx.owned && ctx.owned[user] != [] then Some(ctx.owned[user][0]) else None
    case Updated(_, customer, _, _) => ByCustomer(rows, ctx.scan, customer)
    case Deleted(customer) => ByCustomer(rows, ctx.scan, customer)
    case _ => None
  }

  /** The tenant whose row an event, handled without fault, overwrites. */
  function Writes(ctx: Setting, rows: Rows, e: Event): Option<string> {
    var t := Target(ctx, rows, e);
    if Decision(ctx, e).Some? && t.Some? && t.value in rows then t else None
  }

  function Handled(ctx: Setting, rows: Rows, e: Event): Rows {
    var t := Writes(ctx, rows, e);
    if t.Some? then rows[t.value := Decision(ctx, e).value] else rows
  }

  /** Every transient failure answers 500, and then nothing was written. */
  function Answer(ctx: Setting, rows: Rows, d: Delivery): Reply {
    if Decision(ctx, d.event).None? then Accepted
    else if d.fault == LookupFails then Retry
    else
      var t := Target(ctx, rows, d.event);
      if t.None? then Accepted else if d.fault == WriteFails || t.value !in rows then Retry else Accepted
  }

  function Delivered(ctx: Setting, rows: Rows, d: Delivery): Rows {
    if Answer(ctx, rows, d) == Accepted then Handled(ctx, rows, d.event) else rows
  }

  /** `t` is the first tenant, in the store's order, that carries the customer. */
  ghost predicate Carries(rows: Rows, scan: seq<string>, customer: string, t: string) {
    exists i :: 0 <= i < |scan| && scan[i] == t && t in rows && rows[t].customer == Some(customer)
      && forall j :: 0 <= j < i ==> scan[j] !in rows || rows[scan[j]].customer != Some(customer)
  }

  /** No tenant carries the customer. */
  ghost predicate Unknown(rows: Rows, scan: seq<string>, customer: string) {
    forall j :: 0 <= j < |scan| ==> scan[j] !in rows || rows[scan[j]].customer != Some(customer)
  }

  lemma {:induction false} FirstCarrier(rows: Rows, scan: seq<string>, customer: string)
    ensures ByCustomer(rows, scan, customer).None? <==> Unknown(rows, scan, customer)
    ensures forall t :: Carries(rows, scan, customer, t) <==> ByCustomer(rows, scan, customer) == Some(t)
    decreases |scan|
  {
    if scan != [] {
      FirstCarrier(rows, scan[1..], customer);
      assert forall j :: 0 <= j < |scan[1..]| ==> scan[1..][j] == scan[j + 1];
      forall t ensures Carries(rows, scan, customer, t) <==> ByCustomer(rows, scan, customer) == Some(t) {
        CarriesStep(rows, scan, customer, t);
      }
      assert scan[0] !in rows || rows[scan[0]].customer != Some(customer) ==> (Unknown(rows, scan, customer) <==> Unknown(rows, scan[1..], customer)) by {
        if Unknown(rows, scan[1..], customer) && (scan[0] !in rows || rows[scan[0]].customer != Some(customer)) {
          forall j | 0 <= j < |scan| ensures scan[j] !in rows || rows[scan[j]].customer != Some(customer) {
            if j > 0 { assert scan[j] == scan[1..][j - 1]; }
          }
        }
      }
    }
  }

  lemma CarriesStep(rows: Rows, scan: seq<string>, customer: string, t: string)
    requires scan != []
    ensures Carries(rows, scan, customer, t) <==>
      if scan[0] in rows && rows[scan[0]].customer == Some(customer) then t == scan[0] else Carries(rows, scan[1..], customer, t)
  {
    if Carries(rows, scan[1..], customer, t) && (scan[0] !in rows || rows[scan[0]].customer != Some(customer)) {
      var i :| 0 <= i < |scan[1..]| && scan[1..][i] == t && t in rows && rows[t].customer == Some(customer)
        && forall j :: 0 <= j < i ==> scan[1..][j] !in rows || rows[scan[1..][j]].customer != Some(customer);
      forall j | 0 <= j < i + 1 ensures scan[j] !in rows || rows[scan[j]].customer != Some(customer) {
        if j > 0 { assert scan[j] == scan[1..][j - 1]; }
      }
      assert scan[i + 1] == t;
    }
    if Carries(rows, scan, customer, t) {
      var i :| 0 <= i < |scan| && scan[i] == t && t in rows && rows[t].customer == Some(customer)
        && forall j :: 0 <= j < i ==> scan[j] !in rows || rows[scan[j]].customer != Some(customer);
      if i > 0 {
        assert scan[1..][i - 1] == t;
        forall j | 0 <= j < i - 1 ensures scan[1..][j] !in rows || rows[scan[1..][j]].customer != Some(customer) { assert scan[1..][j] == scan[j + 1]; }
      }
    }
    if scan[0] in rows && rows[scan[0]].customer == Some(customer) && t == scan[0] { assert Carries(rows, scan, customer, t); }
  }

  class Handler {
    const ctx: Setting
    var rows: Rows

    constructor (ctx: Setting, rows: Rows)
      ensures this.ctx == ctx && this.rows == rows
    {
      this.ctx, this.rows := ctx, rows;
    }

    method UpdateBilling(t: string, customer: string, subscription: string, tier: string, fault: Fault) returns (ok: bool)
      modifies this
      ensures ok == (fault != WriteFails && t in old(rows))
      ensures rows == if ok then old(rows)[t := Row(Some(customer), Some(subscription), tier)] else old(rows)
    {
      if fault == WriteFails || t !in rows { return false; }
      rows := rows[t := Row(Some(customer), Some(subscription), tier)];
      ok := true;
    }

    method HandleCheckoutCompleted(user: string, tier: string, customer: string, subscription: string, fault: Fault)
      returns (reply: Reply)
      modifies this
      ensures reply == Answer(ctx, old(rows), Delivery(Checkout(user, tier, customer, subscription), fault))
      ensures rows == Delivered(ctx, old(rows), Delivery(Checkout(user, tier, customer, subscription), fault))
      ensures CheckoutDone(old(rows), user, tier, customer, subscription, fault, reply)
    {
      if user == "" || tier == "" { return Accepted; }
      if fault == LookupFails { return Retry; }
      var tenants := if user in ctx.owned then ctx.owned[user] else [];
      if |tenants| == 0 { return Accepted; }
      var ok := UpdateBilling(tenants[0], customer, subscription, tier, fault);
      reply := if ok then Accepted else Retry;
    }

    /** What a checkout does: nothing without user, tier or tenant; otherwise the user's newest tenant gets the customer,
        the subscription and the tier, and any failure on the way asks for the event again and leaves the rows. */
    ghost predicate CheckoutDone(was: Rows, user: string, tier: string, customer: string, subscription: string, fault: Fault, reply: Reply)
      reads this
    {
      if user == "" || tier == "" then reply == Accepted && rows == was
      else if fault == LookupFails then reply == Retry && rows == was
      else if user !in ctx.owned || ctx.owned[user] == [] then reply == Accepted && rows == was
      else if fault == WriteFails || ctx.owned[user][0] !in was then reply == Retry && rows == was
      else reply == Accepted && rows == was[ctx.owned[user][0] := Row(Some(customer), Some(subscription), tier)]
    }

    /** What an event about a customer does that leaves it with a subscription and a tier. */
    ghost predicate CustomerDone(was: Rows, customer: string, subscription: string, tier: string, fault: Fault, reply: Reply)
      reads this
    {
      if fault == LookupFails then reply == Retry && rows == was
      else if Unknown(was, ctx.scan, customer) then reply == Accepted && rows == was
      else if fault == WriteFails then reply == Retry && rows == was
      else reply == Accepted && exists t :: Carries(was, ctx.scan, customer, t) && rows == was[t := Row(Some(customer), Some(subscription), tier)]
    }

    /** What a subscription update does: three statuses end it, two let the price decide, all others wait. */
    ghost predicate UpdateDone(was: Rows, id: string, customer: string, status: string, price: string, fault: Fault, reply: Reply)
      reads this
    {
      if status in {"canceled", "unpaid", "incomplete_expired"} then CustomerDone(was, customer, "", "free", fault, reply)
      else if status in {"active", "trialing"} then
        CustomerDone(was, customer, id, if price in ctx.tiers then ctx.tiers[price] else "free", fault, reply)
      else reply == Accepted && rows == was
    }

    /** `GetByStripeCustomerID`. */
    method FindCustomer(customer: string) returns (t: Option<string>)
      ensures t == ByCustomer(rows, ctx.scan, customer)
      ensures if t.Some? then Carries(rows, ctx.scan, customer, t.value) else Unknown(rows, ctx.scan, customer)
    {
      FirstCarrier(rows, ctx.scan, customer);
      var i := 0;
      while i < |ctx.scan|
        invariant 0 <= i <= |ctx.scan|
        invariant ByCustomer(rows, ctx.scan, customer) == ByCustomer(rows, ctx.scan[i..], customer)
      {
        if ctx.scan[i] in rows && rows[ctx.scan[i]].customer == Some(customer) { return Some(ctx.scan[i]); }
        i := i + 1;
      }
      t := None;
    }

    method HandleSubscriptionUpdated(id: string, customer: string, status: string, price: string, fault: Fault)
      returns (reply: Reply)
      modifies this
      ensures reply == Answer(ctx, old(rows), Delivery(Updated(id, customer, status, price), fault))
      ensures rows == Delivered(ctx, old(rows), Delivery(Updated(id, customer, status, price), fault))
      ensures UpdateDone(old(rows), id, customer, status, price, fault, reply)
    {
      var tier, subscriptionRef;
      if Terminal(status) {
        tier, subscriptionRef := FREE, "";
      } else if Live(status) {
        tier, subscriptionRef := TierOfPrice(ctx.tiers, price), id;
      } else {
        return Accepted;
      }
      if fault == LookupFails { return Retry; }
      var t := FindCustomer(customer);
      if t.None? { return Accepted; }
      var ok := UpdateBilling(t.value, customer, subscriptionRef, tier, fault);
      reply := if ok then Accepted else Retry;
    }

    method HandleSubscriptionDeleted(customer: string, fault: Fault) returns (reply: Reply)
      modifies this
      ensures reply == Answer(ctx, old(rows), Delivery(Deleted(customer), fault))
      ensures rows == Delivered(ctx, old(rows), Delivery(Deleted(customer), fault))
      ensures CustomerDone(old(rows), customer, "", "free", fault, reply)
    {
      if fault == LookupFails { return Retry; }
      var t := FindCustomer(customer);
      if t.None? { return Accepted; }
      var ok := UpdateBilling(t.value, customer, "", FREE, fault);
      reply := if ok then Accepted else Retry;
    }

    method Webhook(d: Delivery) returns (reply: Reply)
      modifies this
      ensures reply == Answer(ctx, old(rows), d)
      ensures rows == Delivered(ctx, old(rows), d)
      ensures reply == Retry ==> rows == old(rows)
      ensures match d.event
        case Checkout(user, tier, customer, subscription) => CheckoutDone(old(rows), user, tier, customer, subscription, d.fault, reply)
        case Updated(id, customer, status, price) => UpdateDone(old(rows), id, customer, status, price, d.fault, reply)
        case Deleted(customer) => CustomerDone(old(rows), customer, "", "free", d.fault, reply)
        case _ => reply == Accepted && rows == old(rows)
    {
      match d.event
      case Checkout(user, tier, customer, subscription) =>
        reply := HandleCheckoutCompleted(user, tier, customer, subscription, d.fault);
      case Updated(id, customer, status, price) =>
        reply := HandleSubscriptionUpdated(id, customer, status, price, d.fault);
      case Deleted(customer) =>
        reply := HandleSubscriptionDeleted(customer, d.fault);
      case _ => reply := Accepted;
    }
  }

  // ---- Whole logs ------------------------------------------------------------------------------------------

  /** The rows after a log of deliveries, faults and repeats included. */
  function AfterLog(ctx: Setting, rows: Rows, log: seq<Delivery>): Rows {
    if log == [] then rows else AfterLog(ctx, Delivered(ctx, rows, log[0]), log[1..])
  }

  /** The rows after events that are each handled once, without fault. */
  function AfterEvents(ctx: Setting, rows: Rows, es: seq<Event>): Rows {
    if es == [] then rows else AfterEvents(ctx, Handled(ctx, rows, es[0]), es[1..])
  }

  /** The events of the deliveries that were answered 200. */
  function Succeeded(ctx: Setting, rows: Rows, log: seq<Delivery>): seq<Event> {
    if log == [] then []
    else
      var more := Succeeded(ctx, Delivered(ctx, rows, log[0]), log[1..]);
      if Answer(ctx, rows, log[0]) == Accepted then [log[0].event] + more else more
  }

  /** Equal neighbours count once. */
  function Collapsed(es: seq<Event>): seq<Event> {
    if |es| < 2 then es else if es[0] == es[1] then Collapsed(es[1..]) else [es[0]] + Collapsed(es[1..])
  }

  /** Overwriting a row leaves the customer column of every row a scan for that customer meets first as it was. */
  lemma {:induction false} SameLookup(rows: Rows, scan: seq<string>, customer: string, row: Row)
    requires ByCustomer(rows, scan, customer).Some? && row.customer == Some(customer)
    ensures ByCustomer(rows, scan, customer).value in rows
    ensures ByCustomer(rows[ByCustomer(rows, scan, customer).value := row], scan, customer) == ByCustomer(rows, scan, customer)
  {
    if scan[0] in rows && rows[scan[0]].customer == Some(customer) {
    } else {
      SameLookup(rows, scan[1..], customer, row);
    }
  }

  /** A second delivery in a row writes what the first one wrote, where the first one wrote it. */
  lemma HandledTwice(ctx: Setting, rows: Rows, e: Event)
    ensures Handled(ctx, Handled(ctx, rows, e), e) == Handled(ctx, rows, e)
  {
    var t := Writes(ctx, rows, e);
    if t.Some? && !e.Checkout? {
      SameLookup(rows, ctx.scan, e.customer, Decision(ctx, e).value);
    }
  }

  lemma {:induction false} CollapsedIsSame(ctx: Setting, rows: Rows, es: seq<Event>)
    ensures AfterEvents(ctx, rows, Collapsed(es)) == AfterEvents(ctx, rows, es)
    decreases |es|
  {
    if |es| < 2 {
    } else if es[0] == es[1] {
      CollapsedIsSame(ctx, rows, es[1..]);
      HandledTwice(ctx, rows, es[0]);
      assert AfterEvents(ctx, rows, es[1..]) == AfterEvents(ctx, Handled(ctx, rows, es[1]), es[1..][1..]);
      assert AfterEvents(ctx, Handled(ctx, rows, es[0]), es[1..]) == AfterEvents(ctx, Handled(ctx, Handled(ctx, rows, es[0]), es[1]), es[1..][1..]);
    } else {
      CollapsedIsSame(ctx, Handled(ctx, rows, es[0]), es[1..]);
      assert ([es[0]] + Collapsed(es[1..]))[1..] == Collapsed(es[1..]);
    }
  }

  lemma {:induction false} SucceededIsSame(ctx: Setting, rows: Rows, log: seq<Delivery>)
    ensures AfterLog(ctx, rows, log) == AfterEvents(ctx, rows, Succeeded(ctx, rows, log))
    decreases |log|
  {
    if log != [] {
      var next := Delivered(ctx, rows, log[0]);
      SucceededIsSame(ctx, next, log[1..]);
      var more := Succeeded(ctx, next, log[1..]);
      if Answer(ctx, rows, log[0]) == Accepted {
        assert ([log[0].event] + more)[1..] == more;
      }
    }
  }

  /** Any log of deliveries, with transient failures and repeats, leaves the rows that its successful events
      leave when neighbouring repeats are dropped. */
  lemma LogStutters(ctx: Setting, rows: Rows, log: seq<Delivery>)
    ensures AfterLog(ctx, rows, log) == AfterEvents(ctx, rows, Collapsed(Succeeded(ctx, rows, log)))
  {
    SucceededIsSame(ctx, rows, log);
    CollapsedIsSame(ctx, rows, Succeeded(ctx, rows, log));
  }

  // ---- The last decisive event -----------------------------------------------------------------------------

  ghost predicate Untouched(ctx: Setting, rows: Rows, es: seq<Event>, t: string) {
    forall i :: 0 <= i < |es| ==> Writes(ctx, AfterEvents(ctx, rows, es[..i]), es[i]) != Some(t)
  }

  lemma {:induction false} AfterBoth(ctx: Setting, rows: Rows, es: seq<Event>, fs: seq<Event>)
    ensures AfterEvents(ctx, rows, es + fs) == AfterEvents(ctx, AfterEvents(ctx, rows, es), fs)
    decreases |es|
  {
    if es == [] {
      assert es + fs == fs;
    } else {
      AfterBoth(ctx, Handled(ctx, rows, es[0]), es[1..], fs);
      assert (es + fs)[1..] == es[1..] + fs;
    }
  }

  lemma {:induction false} UntouchedStays(ctx: Setting, rows: Rows, es: seq<Event>, t: string)
    requires t in rows && Untouched(ctx, rows, es, t)
    ensures var after := AfterEvents(ctx, rows, es); t in after && after[t] == rows[t]
    decreases |es|
  {
    if es != [] {
      assert es[..0] == [];
      assert Writes(ctx, rows, es[0]) != Some(t);
      var next := Handled(ctx, rows, es[0]);
      forall i | 0 <= i < |es[1..]| ensures Writes(ctx, AfterEvents(ctx, next, es[1..][..i]), es[1..][i]) != Some(t) {
        assert es[..i + 1][1..] == es[1..][..i] && es[..i + 1][0] == es[0];
        assert Writes(ctx, AfterEvents(ctx, rows, es[..i + 1]), es[i + 1]) != Some(t);
      }
      UntouchedStays(ctx, next, es[1..], t);
    }
  }

  /** A tenant's billing columns are those of the last event that wrote it, whatever came before. */
  lemma LastDecisionStands(ctx: Setting, rows: Rows, before: seq<Event>, e: Event, later: seq<Event>, t: string)
    requires Writes(ctx, AfterEvents(ctx, rows, before), e) == Some(t)
    requires Untouched(ctx, AfterEvents(ctx, rows, before + [e]), later, t)
    ensures var after := AfterEvents(ctx, rows, before + [e] + later); t in after && Some(after[t]) == Decision(ctx, e)
  {
    AfterBoth(ctx, rows, before, [e]);
    AfterBoth(ctx, rows, before + [e], later);
    assert [e][1..] == [];
    UntouchedStays(ctx, AfterEvents(ctx, rows, before + [e]), later, t);
  }

  /** Events that can only take a tenant to the free tier. */
  predicate Ends(e: Event) { e.Deleted? || (e.Updated? && Terminal(e.status)) }

  /** Every event that writes `t` is one that ends a subscription. */
  ghost predicate OnlyEnded(ctx: Setting, rows: Rows, es: seq<Event>, t: string) {
    forall i :: 0 <= i < |es| ==> Writes(ctx, AfterEvents(ctx, rows, es[..i]), es[i]) == Some(t) ==> Ends(es[i])
  }

  predicate IsFree(rows: Rows, t: string) { t in rows && rows[t].tier == FREE && rows[t].subscription == Some("") }

  /** After a deletion or a terminal update the tenant is free, with no subscription, until a live update or
      a checkout writes it again. */
  lemma {:induction false} EndedStaysFree(ctx: Setting, rows: Rows, es: seq<Event>, t: string)
    requires IsFree(rows, t) && OnlyEnded(ctx, rows, es, t)
    ensures IsFree(AfterEvents(ctx, rows, es), t)
    decreases |es|
  {
    if es != [] {
      assert es[..0] == [];
      var next := Handled(ctx, rows, es[0]);
      assert Writes(ctx, AfterEvents(ctx, rows, es[..0]), es[0]) == Some(t) ==> Ends(es[0]);
      forall i | 0 <= i < |es[1..]|
        ensures Writes(ctx, AfterEvents(ctx, next, es[1..][..i]), es[1..][i]) == Some(t) ==> Ends(es[1..][i])
      {
        assert es[..i + 1][1..] == es[1..][..i] && es[..i + 1][0] == es[0];
        assert Writes(ctx, AfterEvents(ctx, rows, es[..i + 1]), es[i + 1]) == Some(t) ==> Ends(es[i + 1]);
      }
      EndedStaysFree(ctx, next, es[1..], t);
    }
  }

  lemma EndMakesFree(ctx: Setting, rows: Rows, before: seq<Event>, e: Event, later: seq<Event>, t: string)
    requires Ends(e) && Writes(ctx, AfterEvents(ctx, rows, before), e) == Some(t)
    requires OnlyEnded(ctx, AfterEvents(ctx, rows, before + [e]), later, t)
    ensures IsFree(AfterEvents(ctx, rows, before + [e] + later), t)
  {
    AfterBoth(ctx, rows, before, [e]);
    AfterBoth(ctx, rows, before + [e], later);
    assert [e][1..] == [];
    EndedStaysFree(ctx, AfterEvents(ctx, rows, before + [e]), later, t);
  }

  /** An update whose payment outcome is open (past_due, incomplete, paused, unknown) changes nothing and is
      never asked for again, whatever faults meet it. */
  lemma UnresolvedChangesNothing(ctx: Setting, rows: Rows, d: Delivery)
    requires d.event.Updated? && !Terminal(d.event.status) && !Live(d.event.status)
    ensures Delivered(ctx, rows, d) == rows && Answer(ctx, rows, d) == Accepted
  {
  }

  /** When at most one tenant carries the customer, the order in which rows are met does not matter. */
  lemma {:induction false} OneCarrier(rows: Rows, scan: seq<string>, customer: string, t: string)
    requires t in scan && t in rows && rows[t].customer == Some(customer)
    requires forall u :: u in rows && rows[u].customer == Some(customer) ==> u == t
    ensures ByCustomer(rows, scan, customer) == Some(t)
    decreases |scan|
  {
    if scan[0] != t {
      OneCarrier(rows, scan[1..], customer, t);
    }
  }

  /** A checkout and then the deletion of its subscription's customer, which no other tenant carries, leave the user's
      tenant free, whatever it had before. */
  lemma CheckoutThenDeleted(ctx: Setting, rows: Rows, user: string, tier: string, customer: string, subscription: string)
    requires user != "" && tier != "" && user in ctx.owned && ctx.owned[user] != [] && ctx.owned[user][0] in rows
    requires ctx.owned[user][0] in ctx.scan
    requires forall u :: u in rows && rows[u].customer == Some(customer) ==> u == ctx.owned[user][0]
    ensures var after := AfterEvents(ctx, rows, [Checkout(user, tier, customer, subscription), Deleted(customer)]);
      after == rows[ctx.owned[user][0] := Row(Some(customer), Some(""), "free")]
  {
    var t, one, two := ctx.owned[user][0], Checkout(user, tier, customer, subscription), Deleted(customer);
    var mid := Handled(ctx, rows, one);
    assert mid == rows[t := Row(Some(customer), Some(subscription), tier)];
    OneCarrier(mid, ctx.scan, customer, t);
    assert [one, two][1..] == [two] && [two][1..] == [];
    assert AfterEvents(ctx, mid, [two]) == AfterEvents(ctx, Handled(ctx, mid, two), []);
  }

  // ---- Late repeats ----------------------------------------------------------------------------------------

  /** The position of the last event of the log that wrote the tenant's row; -1 if none did. */
  ghost function LastWriter(ctx: Setting, rows: Rows, log: seq<Event>, t: string): (i: int)
    ensures -1 <= i < |log|
    ensures i >= 0 ==> Writes(ctx, AfterEvents(ctx, rows, log[..i]), log[i]) == Some(t)
    ensures forall k :: i < k < |log| ==> Writes(ctx, AfterEvents(ctx, rows, log[..k]), log[k]) != Some(t)
  {
    if log == [] then -1
    else
      var n := |log| - 1;
      assert forall k :: 0 <= k <= n ==> log[..n][..k] == log[..k];
      if Writes(ctx, AfterEvents(ctx, rows, log[..n]), log[n]) == Some(t) then n else LastWriter(ctx, rows, log[..n], t)
  }

  /** An event delivered after a log makes the decision its target already stands under: that of the log's last
      event to write the tenant, or, if none did, what the tenant started with. */
  ghost predicate RepeatsStanding(ctx: Setting, rows: Rows, log: seq<Event>, e: Event, t: string) {
    var i := LastWriter(ctx, rows, log, t);
    if i >= 0 then Decision(ctx, log[i]) == Decision(ctx, e) else t in rows && Decision(ctx, e) == Some(rows[t])
  }

  /** The tenant's row after a log, read off the log. */
  lemma StandingRow(ctx: Setting, rows: Rows, log: seq<Event>, t: string)
    requires t in AfterEvents(ctx, rows, log)
    ensures var i, after := LastWriter(ctx, rows, log, t), AfterEvents(ctx, rows, log);
      if i >= 0 then Decision(ctx, log[i]) == Some(after[t]) else t in rows && after[t] == rows[t]
  {
    hide AfterEvents, Writes, Decision;
    var i := LastWriter(ctx, rows, log, t);
    if i >= 0 {
      assert log == log[..i] + [log[i]] + log[i + 1..] && log[..i + 1] == log[..i] + [log[i]];
      LaterUntouched(ctx, rows, log, i, t);
      LastDecisionStands(ctx, rows, log[..i], log[i], log[i + 1..], t);
    } else {
      SameTenants(ctx, rows, log);
      assert Untouched(ctx, rows, log, t);
      UntouchedStays(ctx, rows, log, t);
    }
  }

  lemma LaterUntouched(ctx: Setting, rows: Rows, log: seq<Event>, i: nat, t: string)
    requires i < |log| && forall k :: i < k < |log| ==> Writes(ctx, AfterEvents(ctx, rows, log[..k]), log[k]) != Some(t)
    ensures Untouched(ctx, AfterEvents(ctx, rows, log[..i + 1]), log[i + 1..], t)
  {
    hide AfterEvents, Writes;
    var later := log[i + 1..];
    forall k | 0 <= k < |later| ensures Writes(ctx, AfterEvents(ctx, AfterEvents(ctx, rows, log[..i + 1]), later[..k]), later[k]) != Some(t) {
      assert log[..i + 1 + k] == log[..i + 1] + later[..k];
      AfterBoth(ctx, rows, log[..i + 1], later[..k]);
    }
  }

  /** Events overwrite rows; they neither add nor remove tenants. */
  lemma {:induction false} SameTenants(ctx: Setting, rows: Rows, es: seq<Event>)
    ensures AfterEvents(ctx, rows, es).Keys == rows.Keys
    decreases |es|
  {
    if es != [] {
      SameTenants(ctx, Handled(ctx, rows, es[0]), es[1..]);
      assert Handled(ctx, rows, es[0]).Keys == rows.Keys;
    }
  }

  /** Delivering an event after any log changes nothing exactly when it writes nothing there, or repeats the decision
      that its target already stands under. */
  lemma HarmlessIffStanding(ctx: Setting, rows: Rows, log: seq<Event>, e: Event)
    ensures var after := AfterEvents(ctx, rows, log);
      AfterEvents(ctx, rows, log + [e]) == after
      <==> Writes(ctx, after, e).None? || RepeatsStanding(ctx, rows, log, e, Writes(ctx, after, e).value)
  {
    var after := AfterEvents(ctx, rows, log);
    AfterBoth(ctx, rows, log, [e]);
    assert [e][1..] == [];
    if Writes(ctx, after, e).Some? {
      var t := Writes(ctx, after, e).value;
      StandingRow(ctx, rows, log, t);
      OverwriteChanges(after, t, Decision(ctx, e).value);
    }
  }

  lemma OverwriteChanges(rows: Rows, t: string, row: Row)
    requires t in rows
    ensures rows[t := row] == rows <==> rows[t] == row
  {
    if rows[t := row] == rows { assert rows[t := row][t] == rows[t]; }
  }

  /** A repeat of an event, with any events since its first delivery, is harmless exactly when it now writes nothing, or
      the last event that wrote its current target decided the same (or, nobody having written it, it started so). If
      the first delivery wrote that tenant, the last writer is the first delivery or an event since. */
  lemma RepeatIsHarmlessIff(ctx: Setting, rows: Rows, before: seq<Event>, e: Event, mid: seq<Event>)
    ensures var log := before + [e] + mid;
      var after := AfterEvents(ctx, rows, log);
      var t := Writes(ctx, after, e);
      && (AfterEvents(ctx, rows, log + [e]) == after <==> t.None? || RepeatsStanding(ctx, rows, log, e, t.value))
      && (t.Some? && Writes(ctx, AfterEvents(ctx, rows, before), e) == t ==> LastWriter(ctx, rows, log, t.value) >= |before|)
  {
    var log := before + [e] + mid;
    HarmlessIffStanding(ctx, rows, log, e);
    assert log[..|before|] == before && log[|before|] == e;
  }

  /** So repeats are not harmless everywhere: an event delivered again after a later one takes effect
      again, so a late copy of a live update brings a deleted subscription's tier back. */
  lemma LateRepeatRevives()
    ensures exists ctx, rows, live: Event, gone: Event, t ::
      && Ends(gone) && live.Updated? && Live(live.status)
      && IsFree(AfterEvents(ctx, rows, [live, gone]), t)
      && !IsFree(AfterEvents(ctx, rows, [live, gone, live]), t)
  {
    var ctx := Setting(map[], ["t"], map["price" := "pro"]);
    var rows: Rows := map["t" := Row(Some("c"), None, FREE)];
    var live, gone := Updated("s", "c", "active", "price"), Deleted("c");
    assert ByCustomer(rows, ["t"], "c") == Some("t");
    var one := Handled(ctx, rows, live);
    assert one == map["t" := Row(Some("c"), Some("s"), "pro")];
    assert ByCustomer(one, ["t"], "c") == Some("t");
    var two := Handled(ctx, one, gone);
    assert two == map["t" := Row(Some("c"), Some(""), FREE)];
    assert ByCustomer(two, ["t"], "c") == Some("t");
    var three := Handled(ctx, two, live);
    assert three == map["t" := Row(Some("c"), Some("s"), "pro")];
    assert [live, gone][1..] == [gone] && [gone][1..] == [];
    assert AfterEvents(ctx, one, [gone]) == AfterEvents(ctx, two, []) == two;
    assert AfterEvents(ctx, rows, [live, gone]) == two;
    AfterBoth(ctx, rows, [live, gone], [live]);
    assert [live, gone] + [live] == [live, gone, live] && [live][1..] == [];
    assert IsFree(two, "t") && !IsFree(three, "t");
    assert Ends(gone) && Live(live.status) && IsFree(AfterEvents(ctx, rows, [live, gone]), "t") && !IsFree(AfterEvents(ctx, rows, [live, gone, live]), "t");
  }

  // ---- The price maps --------------------------------------------------------------------------------------

  /** `m` maps each price to a tier that has it; when tiers share a price the iteration order decides which. */
  ghost predicate Reverses(prices: map<string, string>, m: map<string, string>) {
    && (forall p :: p in m <==> p != "" && p in prices.Values)
    && (forall p :: p in m ==> m[p] in prices && prices[m[p]] == p)
  }

  /** `NewService`: one pass over the price list in an arbitrary order. */
  method NewService(prices: map<string, string>) returns (priceToTier: map<string, string>)
    ensures Reverses(prices, priceToTier)
  {
    priceToTier := map[];
    var rest := prices.Keys;
    while rest != {}
      invariant rest <= prices.Keys
      invariant forall p :: p in priceToTier ==> p != "" && priceToTier[p] in prices && prices[priceToTier[p]] == p
      invariant forall t :: t in prices && t !in rest && prices[t] != "" ==> prices[t] in priceToTier
      decreases |rest|
    {
      var tier :| tier in rest;
      rest := rest - {tier};
      var price := prices[tier];
      if price != "" {
        priceToTier := priceToTier[price := tier];
      }
    }
  }

  /** `GetPriceID`. */
  function PriceOfTier(prices: map<string, string>, tier: string): string {
    if tier in prices then prices[tier] else ""
  }

  /** A tier survives the way to its price and back under every iteration order exactly when no other tier
      has that price, or it has none and is the free tier. */
  lemma TierRoundTrip(prices: map<string, string>, tier: string)
    ensures var p := PriceOfTier(prices, tier);
      (forall m :: Reverses(prices, m) ==> TierOfPrice(m, p) == tier)
      <==> if p == "" then tier == FREE else forall other :: other in prices && prices[other] == p ==> other == tier
  {
    var p := PriceOfTier(prices, tier);
    var any := AnyReverse(prices);
    if p == "" {
      assert p !in any;
    } else if other :| other in prices && prices[other] == p && other != tier {
      assert Reverses(prices, any[p := other]);
      assert TierOfPrice(any[p := other], p) != tier;
    } else {
      forall m | Reverses(prices, m) ensures TierOfPrice(m, p) == tier {
        assert p in prices.Values && p in m;
      }
    }
  }

  ghost function AnyReverse(prices: map<string, string>): (m: map<string, string>)
    ensures Reverses(prices, m)
  {
    map p | p in prices.Values && p != "" :: var t :| t in prices && prices[t] == p; t
  }
}
