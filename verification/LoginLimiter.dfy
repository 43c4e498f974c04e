/** The login limiter: a bounded map of failure counts with expiry, sweeping and eviction, against a
    specification on the history of recorded failures and resets. Times are nanoseconds on one
    non-decreasing clock; a login's check and its record happen at one instant. */
module LoginLimiter {
  const MAX_LOGIN_ATTEMPTS: nat := 5
  const LOGIN_LIMIT_WINDOW: int := 15 * 60 * 1_000_000_000
  const MAX_LIMITER_ENTRIES: nat := 10000

  datatype Entry = Entry(failures: nat, lastFail: int)
  type Entries = map<string, Entry>

  // ---- the specification: what was recorded ------------------------------------------------------------

  datatype Event = Failed(email: string, at: int) | Cleared(email: string)

  /** The times at which `email` failed since it was last cleared. */
  ghost function Failures(history: seq<Event>, email: string): seq<int> {
    if history == [] then []
    else
      var before := Failures(history[..|history| - 1], email);
      match history[|history| - 1]
      case Failed(e, t) => if e == email then before + [t] else before
      case Cleared(e) => if e == email then [] else before
  }

  ghost predicate Close(times: seq<int>, i: nat)
    requires 0 < i < |times|
  {
    times[i] - times[i - 1] <= LOGIN_LIMIT_WINDOW
  }

  /** Refused: at least five failures, the last five no more than a window apart and the last of them
      no more than a window ago. */
  ghost predicate Refused(times: seq<int>, now: int) {
    && |times| >= MAX_LOGIN_ATTEMPTS
    && now - times[|times| - 1] <= LOGIN_LIMIT_WINDOW
    && forall i :: |times| - MAX_LOGIN_ATTEMPTS < i < |times| ==> Close(times, i)
  }

  /** The length of the streak the last failure belongs to. */
  ghost function Streak(times: seq<int>): nat {
    if |times| <= 1 then |times|
    else if Close(times, |times| - 1) then Streak(times[..|times| - 1]) + 1
    else 1
  }

  lemma {:induction false} StreakCounts(times: seq<int>, k: nat)
    requires k > 0
    ensures Streak(times) >= k <==> |times| >= k && forall i :: |times| - k < i < |times| && 0 < i ==> Close(times, i)
  {
    var n := |times| - 1;
    if n >= 1 && k > 1 {
      StreakCounts(times[..n], k - 1);
      assert forall i :: 0 < i < n ==> (Close(times, i) <==> Close(times[..n], i));
    }
  }

  // ---- eviction: the scan for the least recently failed entry ---------------------------------------------

  predicate Expired(e: Entry, now: int) { now - e.lastFail > LOGIN_LIMIT_WINDOW }

  ghost function Unexpired(m: Entries, now: int): Entries {
    map k | k in m && !Expired(m[k], now) :: m[k]
  }

  /** What the scan returns when it meets the keys in this order. The empty string doubles as "none
      found yet". */
  function Oldest(order: seq<string>, m: Entries): string
    requires forall k :: k in order ==> k in m
  {
    if order == [] then ""
    else
      var n := |order| - 1;
      var oldest := Oldest(order[..n], m);
      if oldest == "" || (oldest in m && m[order[n]].lastFail < m[oldest].lastFail) then order[n] else oldest
  }

  ghost predicate IsOldest(order: seq<string>, m: Entries, k: string)
    requires forall j :: j in order ==> j in m
  {
    k in order && forall j :: j in order ==> m[k].lastFail <= m[j].lastFail
  }

  /** The empty key failed strictly earlier than every other key. */
  ghost predicate EmptyKeyOldest(order: seq<string>, m: Entries)
    requires forall j :: j in order ==> j in m
  {
    "" in order && forall j :: j in order && j != "" ==> m[""].lastFail < m[j].lastFail
  }

  ghost predicate Distinct(order: seq<string>) {
    forall i, j :: 0 <= i < j < |order| ==> order[i] != order[j]
  }

  /** The scan finds a least recently failed entry, except when the empty key is strictly the oldest and
      is not met last. */
  lemma {:induction false} ScanFindsOldest(order: seq<string>, m: Entries)
    requires order != [] && Distinct(order) && forall k :: k in order ==> k in m
    ensures Oldest(order, m) in order
    ensures IsOldest(order, m, Oldest(order, m)) <==> !(EmptyKeyOldest(order, m) && order[|order| - 1] != "")
    ensures Oldest(order, m) == "" ==> EmptyKeyOldest(order, m)
  {
    var n := |order| - 1;
    var before, k := order[..n], order[n];
    assert order == before + [k];
    if n == 0 {
      OneScanned(k, m);
    } else {
      LastIsNew(order);
      ScanFindsOldest(before, m);
      ScanUnfolds(order, m);
      ScanStep(before, m, k, order);
    }
    hide Oldest, IsOldest, EmptyKeyOldest, Distinct;
  }

  lemma OneScanned(k: string, m: Entries)
    requires k in m
    ensures Oldest([k], m) == k && IsOldest([k], m, k) && (k == "" ==> EmptyKeyOldest([k], m))
  {
    assert [k][..0] == [];
  }

  lemma LastIsNew(order: seq<string>)
    requires order != [] && Distinct(order)
    ensures Distinct(order[..|order| - 1]) && order[|order| - 1] !in order[..|order| - 1]
    ensures forall j :: j in order[..|order| - 1] ==> j in order
  {
  }

  lemma ScanUnfolds(order: seq<string>, m: Entries)
    requires |order| > 1 && forall k :: k in order ==> k in m
    requires Oldest(order[..|order| - 1], m) in order[..|order| - 1]
    ensures var k, r := order[|order| - 1], Oldest(order[..|order| - 1], m);
      Oldest(order, m) == if r == "" || m[k].lastFail < m[r].lastFail then k else r
  {
  }

  lemma ScanStep(before: seq<string>, m: Entries, k: string, order: seq<string>)
    requires before != [] && order == before + [k] && k !in before
    requires forall j :: j in order ==> j in m
    requires var r := Oldest(before, m);
      && r in before
      && (IsOldest(before, m, r) <==> !(EmptyKeyOldest(before, m) && before[|before| - 1] != ""))
      && (r == "" ==> EmptyKeyOldest(before, m))
    ensures var r := Oldest(before, m);
      var r' := if r == "" || m[k].lastFail < m[r].lastFail then k else r;
      && (IsOldest(order, m, r') <==> !(EmptyKeyOldest(order, m) && k != ""))
      && (r' == "" ==> EmptyKeyOldest(order, m))
  {
    var r := Oldest(before, m);
    if r == "" {
      assert EmptyKeyOldest(order, m) <==> m[""].lastFail < m[k].lastFail;
    } else if k == "" {
      assert "" !in before && IsOldest(before, m, r);
    } else if IsOldest(before, m, r) {
      assert EmptyKeyOldest(order, m) ==> "" in before;
    } else {
      assert EmptyKeyOldest(before, m);
    }
  }

  // ---- the limiter -----------------------------------------------------------------------------------------

  /** Each key once, in the order the scan meets them. */
  ghost predicate Enumerates(order: seq<string>, m: Entries) {
    Distinct(order) && forall k :: k in order <==> k in m
  }

  // An entry counts no more failures than the streak it stands for, and exactly those as long as
  // nothing was evicted; then also, an address without an entry has no open streak.

  ghost predicate EntryOk(e: Entry, times: seq<int>, clock: int, evicted: bool) {
    && times != [] && e.lastFail == times[|times| - 1] <= clock
    && 1 <= e.failures <= Streak(times)
    && (!evicted ==> e.failures == Streak(times))
  }

  ghost predicate NoneOpen(times: seq<int>, clock: int) {
    times == [] || clock - times[|times| - 1] > LOGIN_LIMIT_WINDOW
  }

  ghost predicate Faithful(m: Entries, history: seq<Event>, clock: int, evicted: bool) {
    && (forall k :: k in m ==> EntryOk(m[k], Failures(history, k), clock, evicted))
    && (!evicted ==> forall k: string :: k !in m ==> NoneOpen(Failures(history, k), clock))
  }

  ghost predicate Within(m': Entries, m: Entries) {
    forall k :: k in m' ==> k in m && m'[k] == m[k]
  }

  /** Time passes, and entries whose window has closed may go. */
  lemma DropExpired(m: Entries, history: seq<Event>, clock: int, evicted: bool, m': Entries, now: int)
    requires Faithful(m, history, clock, evicted) && clock <= now && Within(m', m)
    requires forall k :: k in m && k !in m' ==> Expired(m[k], now)
    ensures Faithful(m', history, now, evicted)
  {
    forall k: string | k !in m' && !evicted ensures NoneOpen(Failures(history, k), now) {
      if k in m { assert EntryOk(m[k], Failures(history, k), clock, evicted); } else { assert NoneOpen(Failures(history, k), clock); }
    }
    forall k | k in m' ensures EntryOk(m'[k], Failures(history, k), now, evicted) {
      assert EntryOk(m[k], Failures(history, k), clock, evicted);
    }
  }

  lemma DropAny(m: Entries, history: seq<Event>, clock: int, evicted: bool, m': Entries)
    requires Faithful(m, history, clock, evicted) && Within(m', m)
    ensures Faithful(m', history, clock, true)
  {
    forall k | k in m' ensures EntryOk(m'[k], Failures(history, k), clock, true) {
      assert EntryOk(m[k], Failures(history, k), clock, evicted);
    }
  }

  lemma AddFailure(m: Entries, history: seq<Event>, now: int, evicted: bool, email: string)
    requires Faithful(m, history, now, evicted) && (email in m ==> !Expired(m[email], now))
    ensures var count := if email in m then m[email].failures else 0;
      Faithful(m[email := Entry(count + 1, now)], history + [Failed(email, now)], now, evicted)
  {
    Recorded(history, email, now);
    var times := Failures(history, email);
    if email in m { assert EntryOk(m[email], times, now, evicted); } else { assert !evicted ==> NoneOpen(times, now); }
    var m' := m[email := Entry((if email in m then m[email].failures else 0) + 1, now)];
    forall k | k in m' && k != email ensures EntryOk(m'[k], Failures(history + [Failed(email, now)], k), now, evicted) {
      assert EntryOk(m[k], Failures(history, k), now, evicted);
    }
    forall k: string | k !in m' && !evicted ensures NoneOpen(Failures(history + [Failed(email, now)], k), now) {
      assert NoneOpen(Failures(history, k), now);
    }
  }

  lemma AddOne(m: Entries, email: string, e: Entry)
    ensures |m[email := e]| == if email in m then |m| else |m| + 1
  {
  }

  lemma Clear(m: Entries, history: seq<Event>, clock: int, evicted: bool, email: string)
    requires Faithful(m, history, clock, evicted)
    ensures Faithful(m - {email}, history + [Cleared(email)], clock, evicted)
  {
    Forgotten(history, email);
    forall k | k in m && k != email ensures EntryOk(m[k], Failures(history + [Cleared(email)], k), clock, evicted) {
      assert EntryOk(m[k], Failures(history, k), clock, evicted);
    }
    forall k: string | k !in m && k != email && !evicted ensures NoneOpen(Failures(history + [Cleared(email)], k), clock) {
      assert NoneOpen(Failures(history, k), clock);
    }
  }

  /** What a check may answer, by what the entry says. */
  lemma CheckAnswers(m: Entries, history: seq<Event>, now: int, evicted: bool, email: string)
    requires Faithful(m, history, now, evicted)
    ensures email !in m && !evicted ==> !Refused(Failures(history, email), now)
    ensures email in m && !Expired(m[email], now) && m[email].failures >= MAX_LOGIN_ATTEMPTS ==> Refused(Failures(history, email), now)
    ensures email in m && !Expired(m[email], now) && m[email].failures < MAX_LOGIN_ATTEMPTS && !evicted ==>
      !Refused(Failures(history, email), now)
  {
    var times := Failures(history, email);
    StreakCounts(times, MAX_LOGIN_ATTEMPTS);
    if email in m { assert EntryOk(m[email], times, now, evicted); } else { assert !evicted ==> NoneOpen(times, now); }
  }

  class Limiter {
    var entries: Entries
    ghost var history: seq<Event>
    ghost var clock: int
    /** An entry has been evicted to make room. */
    ghost var evicted: bool

    ghost predicate Valid()
      reads this
    {
      |entries| <= MAX_LIMITER_ENTRIES && Faithful(entries, history, clock, evicted)
    }

    constructor (now: int)
      ensures Valid() && entries == map[] && history == [] && clock == now && !evicted
    {
      entries, history, clock, evicted := map[], [], now, false;
    }

    method Check(email: string, now: int) returns (allowed: bool)
      requires Valid() && now >= clock
      modifies this
      ensures Valid() && history == old(history) && evicted == old(evicted) && clock == now
      ensures entries == if email in old(entries) && Expired(old(entries)[email], now) then old(entries) - {email} else old(entries)
      ensures !allowed ==> Refused(Failures(history, email), now)
      ensures !evicted ==> (allowed <==> !Refused(Failures(history, email), now))
    {
      DropExpired(entries, history, clock, evicted, entries, now);
      CheckAnswers(entries, history, now, evicted, email);
      clock := now;
      if email !in entries { return true; }
      if now - entries[email].lastFail > LOGIN_LIMIT_WINDOW {
        DropExpired(entries, history, now, evicted, entries - {email}, now);
        CheckAnswers(entries - {email}, history, now, evicted, email);
        Remove(entries, email);
        entries := entries - {email};
        return true;
      }
      allowed := entries[email].failures < MAX_LOGIN_ATTEMPTS;
    }

    method RecordFailure(email: string, now: int)
      requires Valid() && now == clock && (email in entries ==> !Expired(entries[email], now))
      modifies this
      ensures Valid() && history == old(history) + [Failed(email, now)] && clock == now
      ensures email in entries && entries[email].lastFail == now
      ensures entries[email].failures == 1 + if email in old(entries) then old(entries)[email].failures else 0
      ensures forall k :: k in entries && k != email ==> k in old(entries) && entries[k] == old(entries)[k]
      ensures email in old(entries) || |old(entries)| < MAX_LIMITER_ENTRIES ==>
        entries == old(entries)[email := entries[email]] && evicted == old(evicted)
    {
      if email !in entries { MakeRoomLocked(now); }
      Count(email, now);
    }

    /** `e.failures++` on the entry there is, or on a new one. */
    method Count(email: string, now: int)
      requires Valid() && now == clock && (email in entries ==> !Expired(entries[email], now))
      requires email in entries || |entries| < MAX_LIMITER_ENTRIES
      modifies this`entries, this`history
      ensures Valid() && history == old(history) + [Failed(email, now)]
      ensures entries == old(entries)[email := Entry(1 + if email in old(entries) then old(entries)[email].failures else 0, now)]
    {
      var count := if email in entries then entries[email].failures else 0;
      AddFailure(entries, history, now, evicted, email);
      AddOne(entries, email, Entry(count + 1, now));
      entries, history := entries[email := Entry(count + 1, now)], history + [Failed(email, now)];
      hide Faithful, Expired;
    }

    /** Expired entries go first; if the map is still full, the scan's pick goes. */
    method MakeRoomLocked(now: int)
      requires Valid() && now == clock
      modifies this`entries, this`evicted
      ensures Valid() && |entries| < MAX_LIMITER_ENTRIES && Within(entries, old(entries))
      ensures old(evicted) ==> evicted
      ensures |old(entries)| < MAX_LIMITER_ENTRIES ==> entries == old(entries) && evicted == old(evicted)
      ensures
        var open := Unexpired(old(entries), now);
        |old(entries)| >= MAX_LIMITER_ENTRIES ==>
          if |open| < MAX_LIMITER_ENTRIES then entries == open && evicted == old(evicted)
          else exists order :: Enumerates(order, open) && entries == open - {Oldest(order, open)}
    {
      if |entries| < MAX_LIMITER_ENTRIES { return; }
      var _ := SweepLocked(now);
      if |entries| < MAX_LIMITER_ENTRIES { return; }

      var oldestEmail, order := FindOldest();
      Remove(entries, oldestEmail);
      DropAny(entries, history, clock, evicted, entries - {oldestEmail});
      entries, evicted := entries - {oldestEmail}, true;
    }

    /** The scan of the map, in whatever order the keys come. */
    method FindOldest() returns (oldestEmail: string, ghost order: seq<string>)
      requires entries != map[]
      ensures Enumerates(order, entries) && oldestEmail == Oldest(order, entries) && oldestEmail in entries
    {
      var oldestAt := 0;
      oldestEmail, order := "", [];
      var todo := entries.Keys;
      while todo != {}
        invariant todo <= entries.Keys && Distinct(order)
        invariant forall k :: k in order <==> k in entries && k !in todo
        invariant oldestEmail == Oldest(order, entries)
        invariant oldestEmail != "" ==> oldestEmail in entries && oldestAt == entries[oldestEmail].lastFail
        decreases |todo|
      {
        var email :| email in todo;
        ghost var before := order;
        order := order + [email];
        assert order[..|before|] == before;
        if oldestEmail == "" || entries[email].lastFail < oldestAt {
          oldestEmail, oldestAt := email, entries[email].lastFail;
        }
        todo := todo - {email};
      }
      FullScan(order, entries);
    }

    /** Removes the entries whose window has closed. */
    method SweepLocked(now: int) returns (gone: nat)
      requires Valid() && now == clock
      modifies this`entries
      ensures Valid() && entries == Unexpired(old(entries), now) && gone == |old(entries)| - |entries|
      ensures forall k :: k in entries <==> k in old(entries) && now - old(entries)[k].lastFail <= LOGIN_LIMIT_WINDOW
    {
      gone := 0;
      var todo := entries.Keys;
      while todo != {}
        invariant todo <= entries.Keys && Within(entries, old(entries))
        invariant forall k :: k in old(entries) && k !in todo ==> (k in entries <==> !Expired(old(entries)[k], now))
        invariant gone == |old(entries)| - |entries|
        decreases |todo|
      {
        var email :| email in todo;
        if now - entries[email].lastFail > LOGIN_LIMIT_WINDOW {
          Remove(entries, email);
          entries := entries - {email};
          gone := gone + 1;
        }
        todo := todo - {email};
      }
      assert entries == Unexpired(old(entries), now);
      DropExpired(old(entries), history, clock, evicted, entries, now);
    }

    method Sweep(now: int) returns (gone: nat)
      requires Valid() && now >= clock
      modifies this
      ensures Valid() && history == old(history) && evicted == old(evicted) && clock == now
      ensures entries == Unexpired(old(entries), now) && gone == |old(entries)| - |entries|
      ensures forall k :: k in entries <==> k in old(entries) && now - old(entries)[k].lastFail <= LOGIN_LIMIT_WINDOW
    {
      DropExpired(entries, history, clock, evicted, entries, now);
      clock := now;
      gone := SweepLocked(now);
    }

    method Reset(email: string)
      requires Valid()
      modifies this
      ensures Valid() && history == old(history) + [Cleared(email)] && clock == old(clock) && evicted == old(evicted)
      ensures entries == old(entries) - {email}
    {
      Clear(entries, history, clock, evicted, email);
      Remove(entries, email);
      entries := entries - {email};
      history := history + [Cleared(email)];
    }
  }

  /** How a login that was let through to the user store came out. */
  datatype Answer = StoreDown | BadCredentials | Welcome

  /** `Login`: check, then record a failure or reset, at one instant. With the limiter kept `Valid` by
      every other call, this holds after any interleaving of logins and sweeps: an address that is
      refused is one the specification refuses on the recorded history, and while nothing has been evicted it
      refuses exactly those. */
  method Login(l: Limiter, email: string, now: int, answer: Answer) returns (refused: bool)
    requires l.Valid() && now >= l.clock
    modifies l
    ensures l.Valid() && l.clock == now
    ensures refused ==> Refused(Failures(old(l.history), email), now)
    ensures !old(l.evicted) ==> (refused <==> Refused(Failures(old(l.history), email), now))
    ensures l.history == old(l.history) +
      if refused || answer == StoreDown then [] else if answer == Welcome then [Cleared(email)] else [Failed(email, now)]
    ensures |old(l.entries)| < MAX_LIMITER_ENTRIES ==> l.evicted == old(l.evicted)
  {
    var allowed := l.Check(email, now);
    assert |l.entries| <= |old(l.entries)| by { Remove(old(l.entries), email); }
    if !allowed { return true; }
    if answer == BadCredentials {
      l.RecordFailure(email, now);
    } else if answer == Welcome {
      l.Reset(email);
    }
    refused := false;
  }

  lemma Remove(m: Entries, k: string)
    ensures |m - {k}| == if k in m then |m| - 1 else |m|
  {
    if k in m {
      assert m == (m - {k})[k := m[k]];
    } else {
      assert m - {k} == m;
    }
  }

  lemma FullScan(order: seq<string>, m: Entries)
    requires Distinct(order) && m != map[] && forall k :: k in order <==> k in m
    ensures Enumerates(order, m) && Oldest(order, m) in m
  {
    var k :| k in m;
    assert k in order;
    ScanFindsOldest(order, m);
  }

  /** An evicted entry whose window was open was no newer than any of the 9999 or more that stay, unless
      the empty key was in the map. */
  lemma EvictionIsLeastRecent(order: seq<string>, open: Entries)
    requires Enumerates(order, open) && |open| >= MAX_LIMITER_ENTRIES && "" !in open
    ensures var gone := Oldest(order, open);
      && gone in open && |open - {gone}| >= MAX_LIMITER_ENTRIES - 1
      && forall k :: k in open - {gone} ==> open[gone].lastFail <= open[k].lastFail
  {
    FullScan(order, open);
    ScanFindsOldest(order, open);
    Remove(open, Oldest(order, open));
  }

  // ---- when eviction goes wrong ----------------------------------------------------------------------------

  /** The empty key failed strictly earlier than every other key. */
  ghost predicate EmptyStrictlyOldest(m: Entries) {
    "" in m && forall j :: j in m && j != "" ==> m[""].lastFail < m[j].lastFail
  }

  /** Whatever order the map is met in, the scan drops a least recent entry; this holds exactly unless the empty key is
      strictly the oldest of several. */
  lemma EveryScanFindsOldestIff(open: Entries)
    requires open != map[]
    ensures (forall order :: Enumerates(order, open) ==> IsOldest(order, open, Oldest(order, open)))
      <==> !(EmptyStrictlyOldest(open) && |open| > 1)
  {
    if EmptyStrictlyOldest(open) && |open| > 1 {
      assert |open - {""}| > 0 by { Remove(open, ""); }
      var k :| k in open - {""};
      var order := AnyOtherCanGo(open, k);
      assert "" in order && open[""].lastFail < open[k].lastFail;
      assert !IsOldest(order, open, Oldest(order, open));
    } else {
      forall order | Enumerates(order, open) ensures IsOldest(order, open, Oldest(order, open)) {
        ScanOfAll(order, open);
      }
    }
  }

  lemma ScanOfAll(order: seq<string>, open: Entries)
    requires Enumerates(order, open) && open != map[] && !(EmptyStrictlyOldest(open) && |open| > 1)
    ensures IsOldest(order, open, Oldest(order, open))
  {
    FullScan(order, open);
    ScanFindsOldest(order, open);
    assert EmptyKeyOldest(order, open) ==> EmptyStrictlyOldest(open);
    if EmptyStrictlyOldest(open) {
      OnlyKey(open, order[|order| - 1]);
    }
  }

  lemma OnlyKey(open: Entries, k: string)
    requires "" in open && k in open && |open| <= 1
    ensures k == ""
  {
    Remove(open, "");
    assert k != "" ==> k in open - {""};
  }

  /** Each of the keys once. */
  ghost function Listing(keys: set<string>): (order: seq<string>)
    ensures Distinct(order) && forall k :: k in order <==> k in keys
  {
    if keys == {} then [] else var k :| k in keys; Listing(keys - {k}) + [k]
  }

  /** With the empty key strictly oldest, any other entry at all may be the one that goes. */
  lemma AnyOtherCanGo(open: Entries, k: string) returns (order: seq<string>)
    requires EmptyStrictlyOldest(open) && k in open && k != ""
    ensures Enumerates(order, open) && Oldest(order, open) == k
  {
    var others := Listing(open.Keys - {"", k});
    order := others + [""] + [k];
    assert Enumerates(order, open) by {
      assert forall j :: j in order <==> j in others || j == "" || j == k;
    }
    EmptyThenNext(others, open, k);
  }

  /** Once it has settled on the empty key the scan takes whatever comes next. */
  lemma EmptyThenNext(others: seq<string>, open: Entries, k: string)
    requires EmptyStrictlyOldest(open) && k in open && "" !in others && forall j :: j in others ==> j in open
    ensures (forall j :: j in others + [""] + [k] ==> j in open) && Oldest(others + [""] + [k], open) == k
  {
    var most := others + [""];
    assert (most + [k])[..|most|] == most && most[..|others|] == others;
    assert forall j :: j in most ==> j in open;
    OldestIsMet(others, open);
    assert Oldest(most, open) == "";
  }

  lemma {:induction false} OldestIsMet(order: seq<string>, m: Entries)
    requires forall j :: j in order ==> j in m
    ensures Oldest(order, m) == "" || Oldest(order, m) in order
  {
    if order != [] { OldestIsMet(order[..|order| - 1], m); }
  }

  /** `n` addresses that failed one after the other, the empty one first. */
  ghost function Crowd(n: nat): Entries {
    if n == 0 then map[] else Crowd(n - 1)[Address(n - 1) := Entry(1, n - 1)]
  }

  function Address(i: nat): (email: string)
    ensures |email| == i
  {
    seq(i, _ => 'a')
  }

  lemma {:induction false} CrowdHolds(n: nat)
    ensures |Crowd(n)| == n
    ensures forall i :: 0 <= i < n ==> Address(i) in Crowd(n) && Crowd(n)[Address(i)] == Entry(1, i)
    ensures forall k :: k in Crowd(n) ==> |k| < n && k == Address(|k|)
  {
    if n > 0 {
      CrowdHolds(n - 1);
      assert Address(n - 1) !in Crowd(n - 1);
    }
  }

  /** `k` failed strictly later than every other key. */
  ghost predicate IsNewest(m: Entries, k: string) {
    k in m && forall j :: j in m && j != k ==> m[j].lastFail < m[k].lastFail
  }

  /** A limiter that real failures have filled, all within one window: with its map at the cap, the next failure of a
      new address may evict the address that failed last. */
  method FillLimiter() returns (l: Limiter)
    ensures fresh(l) && l.Valid() && !l.evicted && l.clock == MAX_LIMITER_ENTRIES
    ensures |l.entries| == MAX_LIMITER_ENTRIES && Unexpired(l.entries, l.clock) == l.entries
    ensures exists order :: Enumerates(order, l.entries) && IsNewest(l.entries, Oldest(order, l.entries))
  {
    l := new Limiter(0);
    for i := 0 to MAX_LIMITER_ENTRIES
      invariant fresh(l) && l.Valid() && !l.evicted && l.clock <= i && l.entries == Crowd(i)
    {
      CrowdHolds(i);
      assert Address(i) !in l.entries;
      var _ := l.Check(Address(i), i);
      l.RecordFailure(Address(i), i);
    }
    CrowdHolds(MAX_LIMITER_ENTRIES);
    var _ := l.Check(Address(MAX_LIMITER_ENTRIES), MAX_LIMITER_ENTRIES);
    CrowdIsUnfair();
  }

  lemma CrowdIsUnfair()
    ensures var m := Crowd(MAX_LIMITER_ENTRIES);
      && Unexpired(m, MAX_LIMITER_ENTRIES) == m
      && exists order :: Enumerates(order, m) && IsNewest(m, Oldest(order, m))
  {
    var m, n := Crowd(MAX_LIMITER_ENTRIES), MAX_LIMITER_ENTRIES - 1;
    CrowdHolds(MAX_LIMITER_ENTRIES);
    hide Crowd;
    var k := Address(n);
    assert Address(0) == "";
    forall j | j in m && j != k ensures m[j].lastFail < m[k].lastFail {
      assert j == Address(|j|);
    }
    forall j | j in m && j != "" ensures m[""].lastFail < m[j].lastFail {
      assert j == Address(|j|);
    }
    forall j | j in m ensures !Expired(m[j], MAX_LIMITER_ENTRIES) {
      assert j == Address(|j|) && m[j].lastFail == |j|;
    }
    var order := AnyOtherCanGo(m, k);
  }

  // ---- how an empty key gets there --------------------------------------------------------------------------

  /** `unicode.IsSpace`. */
  predicate IsSpace(c: char) {
    || c in "\t\n\r \U{0B}\U{0C}\U{85}\U{A0}\U{1680}\U{2028}\U{2029}\U{202F}\U{205F}\U{3000}"
    || '\U{2000}' <= c <= '\U{200A}'
  }

  function TrimLeft(s: string): string { if s != "" && IsSpace(s[0]) then TrimLeft(s[1..]) else s }

  function TrimRight(s: string): string { if s != "" && IsSpace(s[|s| - 1]) then TrimRight(s[..|s| - 1]) else s }

  /** `user.NormalizeEmail`: the key the limiter is given. */
  function NormalizeEmail(email: string, lower: char -> char): string {
    var trimmed := TrimRight(TrimLeft(email));
    seq(|trimmed|, i requires 0 <= i < |trimmed| => lower(trimmed[i]))
  }

  lemma {:induction false} TrimLeftOfBlank(s: string)
    ensures TrimLeft(s) == "" <==> forall i :: 0 <= i < |s| ==> IsSpace(s[i])
    ensures TrimLeft(s) != "" ==> !IsSpace(TrimLeft(s)[0])
  {
    if s != "" && IsSpace(s[0]) {
      TrimLeftOfBlank(s[1..]);
      assert forall i :: 0 < i < |s| ==> s[i] == s[1..][i - 1];
    }
  }

  lemma {:induction false} TrimRightKeepsHead(s: string)
    requires s != "" && !IsSpace(s[0])
    ensures TrimRight(s) != ""
  {
    if IsSpace(s[|s| - 1]) { TrimRightKeepsHead(s[..|s| - 1]); }
  }

  /** The limiter sees the empty key exactly for addresses of nothing but blanks; the handler refuses only the one of
      no characters at all. */
  lemma EmptyKeyIffBlank(email: string, lower: char -> char)
    ensures NormalizeEmail(email, lower) == "" <==> forall i :: 0 <= i < |email| ==> IsSpace(email[i])
  {
    TrimLeftOfBlank(email);
    if TrimLeft(email) != "" { TrimRightKeepsHead(TrimLeft(email)); }
  }

  lemma Recorded(history: seq<Event>, email: string, now: int)
    ensures Failures(history + [Failed(email, now)], email) == Failures(history, email) + [now]
    ensures forall k :: k != email ==> Failures(history + [Failed(email, now)], k) == Failures(history, k)
    ensures Streak(Failures(history, email) + [now]) ==
      var times := Failures(history, email);
      if times != [] && now - times[|times| - 1] <= LOGIN_LIMIT_WINDOW then Streak(times) + 1 else 1
  {
    var times := Failures(history, email);
    assert (history + [Failed(email, now)])[..|history|] == history;
    assert (times + [now])[..|times|] == times;
  }

  lemma Forgotten(history: seq<Event>, email: string)
    ensures Failures(history + [Cleared(email)], email) == []
    ensures forall k :: k != email ==> Failures(history + [Cleared(email)], k) == Failures(history, k)
  {
    assert (history + [Cleared(email)])[..|history|] == history;
  }
}
