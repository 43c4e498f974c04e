/** The Proxmox client cache: double-checked locking in `getClient`, `InvalidateClient`, and the node
    update that writes new credentials first and invalidates afterwards.

    URLs and tokens are counted: version k is what the k-th write stored. Threads interleave between
    any two accesses to the cache, its lock or the node table; the URL and the token are read one after the
    other, so a client may be built from two different writes.

    Only an update that carries a token invalidates. What is proved of a field of the credentials holds on
    runs that are careful about it: every update that sets the field also carries a token. For the token
    that is every run. */
module ClientCache {
  import opened Stores
  import opened Wrappers

  type ThreadId = nat
  type Version = nat

  datatype Creds = Creds(url: Version, token: Version)

  datatype Field = Url | Token

  function Of(c: Creds, f: Field): Version { if f.Url? then c.url else c.token }

  /** The versions whose `InvalidateClient` has returned. */
  datatype Settled = Settled(urls: set<Version>, tokens: set<Version>)
  {
    function Of(f: Field): set<Version> { if f.Url? then urls else tokens }
  }

  datatype GetPc = Peek | Locking | Recheck | ReadNode | ReadToken | Build
  datatype UpdatePc = Write | Awaiting | Erasing

  /** `floor` remembers what had been settled when the call began; `wrote` is what the update's write stored. */
  datatype Thread =
    | Getting(n: NodeId, getPc: GetPc, seen: Creds, floor: Settled)
    | Got(n: NodeId, client: Creds, floor: Settled)
    | Updating(n: NodeId, updatePc: UpdatePc, wrote: Creds, setsToken: bool, setsUrl: bool)
    | Ended

  datatype State = State(
    creds: map<NodeId, Creds>, clients: map<NodeId, Creds>, lock: Option<ThreadId>,
    threads: map<ThreadId, Thread>, settled: map<NodeId, Settled>)

  datatype Action =
    | AddNode(n: NodeId)
    | BeginGet(a: ThreadId, n: NodeId)
    | BeginUpdate(a: ThreadId, n: NodeId, setsToken: bool, setsUrl: bool)
    | Move(a: ThreadId, ok: bool)

  ghost predicate Initial(s: State) {
    s.creds == map[] && s.clients == map[] && s.lock == None && s.threads == map[] && s.settled == map[]
  }

  function Put(s: State, a: ThreadId, t: Thread): State { s.(threads := s.threads[a := t]) }

  function SettledOf(s: State, n: NodeId): Settled { if n in s.settled then s.settled[n] else Settled({}, {}) }

  /** One access by a thread inside `getClient`; `ok` is false when a store read or the decryption fails. */
  function GetStep(s: State, a: ThreadId, t: Thread, ok: bool): State
    requires t.Getting?
  {
    match t.getPc
    case Peek =>
      if s.lock.Some? then s
      else if t.n in s.clients then Put(s, a, Got(t.n, s.clients[t.n], t.floor))
      else Put(s, a, t.(getPc := Locking))
    case Locking => if s.lock.Some? then s else Put(s.(lock := Some(a)), a, t.(getPc := Recheck))
    case Recheck =>
      if t.n in s.clients then Put(s.(lock := None), a, Got(t.n, s.clients[t.n], t.floor))
      else Put(s, a, t.(getPc := ReadNode))
    case ReadNode =>
      if ok && t.n in s.creds then Put(s, a, t.(getPc := ReadToken, seen := t.seen.(url := s.creds[t.n].url)))
      else Put(s.(lock := None), a, Ended)
    case ReadToken =>
      if ok && t.n in s.creds then Put(s, a, t.(getPc := Build, seen := t.seen.(token := s.creds[t.n].token)))
      else Put(s.(lock := None), a, Ended)
    case Build => Put(s.(lock := None, clients := s.clients[t.n := t.seen]), a, Got(t.n, t.seen, t.floor))
  }

  function Written(c: Creds, setsToken: bool, setsUrl: bool): Creds {
    Creds(if setsUrl then c.url + 1 else c.url, if setsToken then c.token + 1 else c.token)
  }

  function SettledBy(d: Settled, t: Thread): Settled
    requires t.Updating?
  {
    Settled(d.urls + (if t.setsUrl then {t.wrote.url} else {}), d.tokens + (if t.setsToken then {t.wrote.token} else {}))
  }

  /** One access by a node update. */
  function UpdateStep(s: State, a: ThreadId, t: Thread, ok: bool): State
    requires t.Updating?
  {
    match t.updatePc
    case Write =>
      if !ok || t.n !in s.creds || !(t.setsToken || t.setsUrl) then Put(s, a, Ended)
      else
        var c := Written(s.creds[t.n], t.setsToken, t.setsUrl);
        Put(s.(creds := s.creds[t.n := c]), a, if t.setsToken then t.(updatePc := Awaiting, wrote := c) else Ended)
    case Awaiting => if s.lock.Some? then s else Put(s.(lock := Some(a)), a, t.(updatePc := Erasing))
    case Erasing =>
      Put(s.(lock := None, clients := s.clients - {t.n}, settled := s.settled[t.n := SettledBy(SettledOf(s, t.n), t)]), a, Ended)
  }

  function Step(s: State, act: Action): State {
    match act
    case AddNode(n) => if n in s.creds then s else s.(creds := s.creds[n := Creds(0, 0)])
    case BeginGet(a, n) => if a in s.threads then s else Put(s, a, Getting(n, Peek, Creds(0, 0), SettledOf(s, n)))
    case BeginUpdate(a, n, token, url) => if a in s.threads then s else Put(s, a, Updating(n, Write, Creds(0, 0), token, url))
    case Move(a, ok) =>
      if a !in s.threads then s
      else match s.threads[a]
        case Getting(_, _, _, _) => GetStep(s, a, s.threads[a], ok)
        case Updating(_, _, _, _, _) => UpdateStep(s, a, s.threads[a], ok)
        case _ => s
  }

  function Run(s: State, acts: seq<Action>): State {
    if acts == [] then s else Step(Run(s, acts[..|acts| - 1]), acts[|acts| - 1])
  }

  /** An update that sets the field also carries a token. */
  predicate Careful(act: Action, f: Field) { act.BeginUpdate? && f.Url? && act.setsUrl ==> act.setsToken }

  ghost predicate AllCareful(acts: seq<Action>, f: Field) { forall i :: 0 <= i < |acts| ==> Careful(acts[i], f) }

  lemma EveryRunIsCarefulAboutTokens(acts: seq<Action>)
    ensures AllCareful(acts, Token)
  {
  }

  // ---- the invariant -----------------------------------------------------------------------------------

  predicate Sets(t: Thread, f: Field)
    requires t.Updating?
  {
    if f.Url? then t.setsUrl else t.setsToken
  }

  /** The update has stored version `v` of the field of node `n` and has yet to invalidate. */
  predicate Invalidates(t: Thread, n: NodeId, f: Field, v: Version) {
    t.Updating? && t.updatePc != Write && t.n == n && Sets(t, f) && Of(t.wrote, f) == v
  }

  ghost predicate Pending(s: State, n: NodeId, f: Field, v: Version) {
    exists a :: a in s.threads && Invalidates(s.threads[a], n, f, v)
  }

  /** A client built from version `v` is missing only versions that have not been invalidated yet. */
  ghost predicate FreshEnough(s: State, n: NodeId, f: Field, v: Version) {
    && n in s.creds && v <= Of(s.creds[n], f)
    && (forall u :: u in SettledOf(s, n).Of(f) ==> u <= v)
  }

  predicate HoldsLock(t: Thread) {
    || (t.Getting? && t.getPc != Peek && t.getPc != Locking)
    || (t.Updating? && t.updatePc == Erasing)
  }

  /** The thread has read the field and is about to build a client from it. */
  predicate Carries(t: Thread, f: Field) { t.Getting? && (t.getPc == Build || (f.Url? && t.getPc == ReadToken)) }

  ghost predicate ThreadOk(s: State, a: ThreadId, t: Thread, f: Field) {
    && (HoldsLock(t) <==> s.lock == Some(a))
    && (t.Getting? ==> t.floor.Of(f) <= SettledOf(s, t.n).Of(f))
    && (Carries(t, f) ==> FreshEnough(s, t.n, f, Of(t.seen, f)))
    && (t.Got? ==> forall v :: v in t.floor.Of(f) ==> v <= Of(t.client, f))
    && (t.Updating? && Sets(t, f) ==> t.setsToken)
    && (t.Updating? && t.updatePc != Write ==> t.n in s.creds && (Sets(t, f) ==> 1 <= Of(t.wrote, f) <= Of(s.creds[t.n], f)))
  }

  ghost predicate NodeOk(s: State, n: NodeId, f: Field) {
    && (n in s.clients ==> FreshEnough(s, n, f, Of(s.clients[n], f)))
    && (n !in s.creds ==> SettledOf(s, n).Of(f) == {})
    && (n in s.creds ==> forall v :: v in SettledOf(s, n).Of(f) ==> 1 <= v <= Of(s.creds[n], f))
    && (n in s.creds ==> forall v :: 1 <= v <= Of(s.creds[n], f) && v !in SettledOf(s, n).Of(f) ==> Pending(s, n, f, v))
  }

  ghost predicate Inv(s: State, f: Field) {
    && (forall a :: a in s.threads ==> ThreadOk(s, a, s.threads[a], f))
    && (s.lock.Some? ==> s.lock.value in s.threads)
    && (forall n :: NodeOk(s, n, f))
  }

  lemma GetKeepsInv(s: State, a: ThreadId, ok: bool, f: Field)
    requires Inv(s, f) && a in s.threads && s.threads[a].Getting?
    ensures Inv(GetStep(s, a, s.threads[a], ok), f)
  {
    var t := s.threads[a];
    var s' := GetStep(s, a, t, ok);
    assert ThreadOk(s, a, t, f) && NodeOk(s, t.n, f);
    GetKeepsThread(s, a, ok, f);
    GetKeepsRest(s, a, ok);
    GetMovesLock(s, a, ok);
    forall n ensures NodeOk(s', n, f) { GetKeepsNode(s, a, ok, n, f); }
    forall b | b in s'.threads && b != a ensures ThreadOk(s', b, s'.threads[b], f) {
      assert ThreadOk(s, b, s.threads[b], f);
      OthersKeepLock(s, a, b, s', f);
    }
    hide GetStep, NodeOk, ThreadOk;
  }

  lemma GetKeepsThread(s: State, a: ThreadId, ok: bool, f: Field)
    requires a in s.threads && s.threads[a].Getting? && ThreadOk(s, a, s.threads[a], f) && NodeOk(s, s.threads[a].n, f)
    ensures var s' := GetStep(s, a, s.threads[a], ok); a in s'.threads && ThreadOk(s', a, s'.threads[a], f)
  {
    if s.threads[a].getPc == Peek || s.threads[a].getPc == Recheck {
      LookKeepsThread(s, a, ok, f);
    } else if s.threads[a].getPc == Build {
      BuildKeepsThread(s, a, ok, f);
    } else {
      ReadKeepsThread(s, a, ok, f);
    }
    hide ThreadOk, NodeOk, GetStep;
  }

  lemma LookKeepsThread(s: State, a: ThreadId, ok: bool, f: Field)
    requires a in s.threads && s.threads[a].Getting? && ThreadOk(s, a, s.threads[a], f) && NodeOk(s, s.threads[a].n, f)
    requires s.threads[a].getPc == Peek || s.threads[a].getPc == Recheck
    ensures var s' := GetStep(s, a, s.threads[a], ok); a in s'.threads && ThreadOk(s', a, s'.threads[a], f)
  {
    hide Pending;
  }

  lemma BuildKeepsThread(s: State, a: ThreadId, ok: bool, f: Field)
    requires a in s.threads && s.threads[a].Getting? && ThreadOk(s, a, s.threads[a], f) && s.threads[a].getPc == Build
    ensures var s' := GetStep(s, a, s.threads[a], ok); a in s'.threads && ThreadOk(s', a, s'.threads[a], f)
  {
  }

  lemma ReadKeepsThread(s: State, a: ThreadId, ok: bool, f: Field)
    requires a in s.threads && s.threads[a].Getting? && ThreadOk(s, a, s.threads[a], f) && NodeOk(s, s.threads[a].n, f)
    requires s.threads[a].getPc == Locking || s.threads[a].getPc == ReadNode || s.threads[a].getPc == ReadToken
    ensures var s' := GetStep(s, a, s.threads[a], ok); a in s'.threads && ThreadOk(s', a, s'.threads[a], f)
  {
    hide Pending;
  }

  /** What one access of a `getClient` leaves alone. */
  lemma GetKeepsRest(s: State, a: ThreadId, ok: bool)
    requires a in s.threads && s.threads[a].Getting?
    ensures var s' := GetStep(s, a, s.threads[a], ok);
      && s'.creds == s.creds && s'.settled == s.settled && a in s'.threads && s'.threads == s.threads[a := s'.threads[a]]
  {
  }

  lemma GetMovesLock(s: State, a: ThreadId, ok: bool)
    requires a in s.threads && s.threads[a].Getting? && (HoldsLock(s.threads[a]) <==> s.lock == Some(a))
    ensures var s' := GetStep(s, a, s.threads[a], ok);
      s'.lock == s.lock || (s.lock == Some(a) && s'.lock == None) || (s.lock == None && s'.lock == Some(a))
  {
  }

  lemma OthersKeepLock(s: State, a: ThreadId, b: ThreadId, s': State, f: Field)
    requires a in s.threads && b in s.threads && a != b && ThreadOk(s, a, s.threads[a], f) && ThreadOk(s, b, s.threads[b], f)
    requires s'.creds == s.creds && s'.settled == s.settled
    requires s'.lock == s.lock || (s.lock == Some(a) && s'.lock == None) || (s.lock == None && s'.lock == Some(a))
    ensures ThreadOk(s', b, s.threads[b], f)
  {
  }

  lemma GetKeepsNode(s: State, a: ThreadId, ok: bool, n: NodeId, f: Field)
    requires a in s.threads && s.threads[a].Getting? && ThreadOk(s, a, s.threads[a], f) && NodeOk(s, n, f)
    ensures NodeOk(GetStep(s, a, s.threads[a], ok), n, f)
  {
    var t, s' := s.threads[a], GetStep(s, a, s.threads[a], ok);
    GetKeepsRest(s, a, ok);
    PendingStays(s, s', a, f);
    GetKeepsClient(s, a, ok, n, f);
    assert SettledOf(s', n) == SettledOf(s, n);
    hide GetStep, ThreadOk, FreshEnough;
  }

  lemma GetKeepsClient(s: State, a: ThreadId, ok: bool, n: NodeId, f: Field)
    requires a in s.threads && s.threads[a].Getting? && ThreadOk(s, a, s.threads[a], f)
    requires n in s.clients ==> FreshEnough(s, n, f, Of(s.clients[n], f))
    ensures var s' := GetStep(s, a, s.threads[a], ok); n in s'.clients ==> FreshEnough(s', n, f, Of(s'.clients[n], f))
  {
  }

  /** Only the thread that moved can stop waiting to invalidate. */
  lemma PendingStays(s: State, s': State, a: ThreadId, f: Field)
    requires forall b :: b in s.threads && b != a ==> b in s'.threads && s'.threads[b] == s.threads[b]
    ensures forall n, v :: Pending(s, n, f, v) && !(a in s.threads && Invalidates(s.threads[a], n, f, v)) ==> Pending(s', n, f, v)
    ensures a in s'.threads ==> forall n, v :: Invalidates(s'.threads[a], n, f, v) ==> Pending(s', n, f, v)
  {
    forall n, v | Pending(s, n, f, v) && !(a in s.threads && Invalidates(s.threads[a], n, f, v)) ensures Pending(s', n, f, v) {
      var b :| b in s.threads && Invalidates(s.threads[b], n, f, v);
      assert b in s'.threads && Invalidates(s'.threads[b], n, f, v);
    }
  }

  lemma UpdateKeepsInv(s: State, a: ThreadId, ok: bool, f: Field)
    requires Inv(s, f) && a in s.threads && s.threads[a].Updating?
    ensures Inv(UpdateStep(s, a, s.threads[a], ok), f)
  {
    var t := s.threads[a];
    var s' := UpdateStep(s, a, t, ok);
    assert ThreadOk(s, a, t, f) && NodeOk(s, t.n, f);
    forall n ensures NodeOk(s', n, f) { UpdateKeepsNode(s, a, ok, n, f); }
    forall b | b in s'.threads ensures ThreadOk(s', b, s'.threads[b], f) {
      UpdateKeepsThread(s, a, ok, b, f);
    }
    hide ThreadOk, NodeOk;
  }

  lemma UpdateKeepsThread(s: State, a: ThreadId, ok: bool, b: ThreadId, f: Field)
    requires a in s.threads && s.threads[a].Updating? && ThreadOk(s, a, s.threads[a], f)
    requires b in s.threads && ThreadOk(s, b, s.threads[b], f)
    ensures var s' := UpdateStep(s, a, s.threads[a], ok); b in s'.threads && ThreadOk(s', b, s'.threads[b], f)
  {
    if b == a {
      UpdaterStaysOk(s, a, ok, f);
    } else if s.threads[a].updatePc == Write {
      WriteKeepsThread(s, a, ok, b, f);
    } else {
      EraseKeepsThread(s, a, ok, b, f);
    }
    hide ThreadOk, UpdateStep;
  }

  lemma UpdaterStaysOk(s: State, a: ThreadId, ok: bool, f: Field)
    requires a in s.threads && s.threads[a].Updating? && ThreadOk(s, a, s.threads[a], f)
    ensures var s' := UpdateStep(s, a, s.threads[a], ok); a in s'.threads && ThreadOk(s', a, s'.threads[a], f)
  {
    hide SettledBy, FreshEnough;
  }

  lemma WriteKeepsThread(s: State, a: ThreadId, ok: bool, b: ThreadId, f: Field)
    requires a in s.threads && s.threads[a].Updating? && s.threads[a].updatePc == Write
    requires b in s.threads && b != a && ThreadOk(s, b, s.threads[b], f)
    ensures var s' := UpdateStep(s, a, s.threads[a], ok); b in s'.threads && ThreadOk(s', b, s'.threads[b], f)
  {
    hide SettledBy;
  }

  lemma EraseKeepsThread(s: State, a: ThreadId, ok: bool, b: ThreadId, f: Field)
    requires a in s.threads && s.threads[a].Updating? && s.threads[a].updatePc != Write && ThreadOk(s, a, s.threads[a], f)
    requires b in s.threads && b != a && ThreadOk(s, b, s.threads[b], f)
    ensures var s' := UpdateStep(s, a, s.threads[a], ok); b in s'.threads && ThreadOk(s', b, s'.threads[b], f)
  {
    hide Written;
  }

  lemma UpdateKeepsNode(s: State, a: ThreadId, ok: bool, n: NodeId, f: Field)
    requires a in s.threads && s.threads[a].Updating? && ThreadOk(s, a, s.threads[a], f) && NodeOk(s, n, f)
    ensures NodeOk(UpdateStep(s, a, s.threads[a], ok), n, f)
  {
    if s.threads[a].updatePc == Write { WriteKeepsNode(s, a, ok, n, f); } else { EraseKeepsNode(s, a, ok, n, f); }
    hide UpdateStep, NodeOk, ThreadOk;
  }

  lemma WriteKeepsNode(s: State, a: ThreadId, ok: bool, n: NodeId, f: Field)
    requires a in s.threads && s.threads[a].Updating? && ThreadOk(s, a, s.threads[a], f) && NodeOk(s, n, f)
    requires s.threads[a].updatePc == Write
    ensures NodeOk(UpdateStep(s, a, s.threads[a], ok), n, f)
  {
    var s' := UpdateStep(s, a, s.threads[a], ok);
    PendingStays(s, s', a, f);
    assert SettledOf(s', n) == SettledOf(s, n);
    if n in s'.creds {
      forall v | 1 <= v <= Of(s'.creds[n], f) && v !in SettledOf(s', n).Of(f) ensures Pending(s', n, f, v) {
        if v <= Of(s.creds[n], f) {
          assert Pending(s, n, f, v);
        } else {
          assert Invalidates(s'.threads[a], n, f, v);
        }
      }
    }
    hide Pending, SettledBy;
  }

  lemma EraseKeepsNode(s: State, a: ThreadId, ok: bool, n: NodeId, f: Field)
    requires a in s.threads && s.threads[a].Updating? && ThreadOk(s, a, s.threads[a], f) && NodeOk(s, n, f)
    requires s.threads[a].updatePc != Write
    ensures NodeOk(UpdateStep(s, a, s.threads[a], ok), n, f)
  {
    var t, s' := s.threads[a], UpdateStep(s, a, s.threads[a], ok);
    PendingStays(s, s', a, f);
    assert SettledOf(s', n).Of(f) == SettledOf(s, n).Of(f) + (if t.updatePc == Erasing && n == t.n && Sets(t, f) then {Of(t.wrote, f)} else {});
    hide Pending, SettledBy, Written;
  }

  lemma StepKeepsInv(s: State, act: Action, f: Field)
    requires Inv(s, f) && Careful(act, f)
    ensures Inv(Step(s, act), f)
  {
    var s' := Step(s, act);
    match act
    case Move(a, ok) =>
      if a in s.threads && s.threads[a].Getting? { GetKeepsInv(s, a, ok, f); }
      if a in s.threads && s.threads[a].Updating? { UpdateKeepsInv(s, a, ok, f); }
    case AddNode(m) => AddKeepsInv(s, m, f);
    case BeginGet(a, n) => BeginKeepsInv(s, a, Getting(n, Peek, Creds(0, 0), SettledOf(s, n)), f);
    case BeginUpdate(a, n, token, url) => BeginKeepsInv(s, a, Updating(n, Write, Creds(0, 0), token, url), f);
    hide Inv, GetStep, UpdateStep;
  }

  lemma AddKeepsInv(s: State, m: NodeId, f: Field)
    requires Inv(s, f)
    ensures Inv(Step(s, AddNode(m)), f)
  {
    var s' := Step(s, AddNode(m));
    forall n ensures NodeOk(s', n, f) {
      assert NodeOk(s, n, f) && SettledOf(s', n) == SettledOf(s, n);
      assert forall v :: Pending(s, n, f, v) ==> Pending(s', n, f, v);
    }
    forall b | b in s'.threads ensures ThreadOk(s', b, s'.threads[b], f) { assert ThreadOk(s, b, s.threads[b], f); }
  }

  lemma BeginKeepsInv(s: State, a: ThreadId, t: Thread, f: Field)
    requires Inv(s, f) && !HoldsLock(t) && (t.Getting? ==> t.floor == SettledOf(s, t.n) && !Carries(t, f)) && !t.Got?
    requires t.Updating? ==> t.updatePc == Write && (Sets(t, f) ==> t.setsToken)
    ensures a !in s.threads ==> Inv(Put(s, a, t), f)
  {
    if a !in s.threads {
      var s' := Put(s, a, t);
      PendingStays(s, s', a, f);
      forall n ensures NodeOk(s', n, f) { assert NodeOk(s, n, f) && SettledOf(s', n) == SettledOf(s, n); }
      forall b | b in s'.threads ensures ThreadOk(s', b, s'.threads[b], f) {
        if b != a { assert ThreadOk(s, b, s.threads[b], f); }
      }
    }
  }

  lemma {:induction false} RunKeepsInv(s: State, acts: seq<Action>, f: Field)
    requires Inv(s, f) && AllCareful(acts, f)
    ensures Inv(Run(s, acts), f)
  {
    hide Inv, Step;
    if acts != [] {
      var before := acts[..|acts| - 1];
      assert AllCareful(before, f) && Careful(acts[|acts| - 1], f);
      RunKeepsInv(s, before, f);
      StepKeepsInv(Run(s, before), acts[|acts| - 1], f);
    }
  }

  // ---- coherence -----------------------------------------------------------------------------------------

  /** On a careful run, a cached client older than what is stored means updates have still to invalidate: one for
      each newer version. */
  lemma StaleMeansPending(init: State, acts: seq<Action>, n: NodeId, f: Field)
    requires Initial(init) && AllCareful(acts, f) && n in Run(init, acts).clients
    ensures var s := Run(init, acts);
      && n in s.creds && Of(s.clients[n], f) <= Of(s.creds[n], f)
      && forall v :: Of(s.clients[n], f) < v <= Of(s.creds[n], f) ==> Pending(s, n, f, v)
  {
    RunKeepsInv(init, acts, f);
    assert NodeOk(Run(init, acts), n, f);
  }

  /** On a careful run, `getClient` called after `acts` and returning in any later state, whatever runs in between,
      delivers a client at least as new as every version whose invalidation had returned when it was called. */
  lemma GetIsFresh(init: State, acts: seq<Action>, a: ThreadId, n: NodeId, acts': seq<Action>, f: Field)
    requires Initial(init) && AllCareful(acts + [BeginGet(a, n)] + acts', f)
    requires var s := Run(init, acts); a !in s.threads
    requires var s' := Run(init, acts + [BeginGet(a, n)] + acts'); a in s'.threads && s'.threads[a].Got?
    ensures var s, s' := Run(init, acts), Run(init, acts + [BeginGet(a, n)] + acts');
      s'.threads[a].n == n && forall v :: v in SettledOf(s, n).Of(f) ==> v <= Of(s'.threads[a].client, f)
  {
    var s' := Run(init, acts + [BeginGet(a, n)] + acts');
    FloorIsKept(init, acts, a, n, acts');
    RunKeepsInv(init, acts + [BeginGet(a, n)] + acts', f);
    assert ThreadOk(s', a, s'.threads[a], f);
  }

  /** Thread `a` is a `getClient` for `n` begun when `floor` had been invalidated, or it has failed. */
  predicate Asks(s: State, a: ThreadId, n: NodeId, floor: Settled) {
    a in s.threads &&
    match s.threads[a]
    case Getting(m, _, _, f) => m == n && f == floor
    case Got(m, _, f) => m == n && f == floor
    case Updating(_, _, _, _, _) => false
    case Ended => true
  }

  lemma StepKeepsAsking(s: State, act: Action, a: ThreadId, n: NodeId, floor: Settled)
    requires Asks(s, a, n, floor)
    ensures Asks(Step(s, act), a, n, floor)
  {
    match act
    case Move(b, ok) =>
      if b in s.threads && s.threads[b].Getting? {
        GetKeepsAsking(s, b, ok, a, n, floor);
      } else if b in s.threads && s.threads[b].Updating? {
        UpdateKeepsOthers(s, b, ok, a);
      }
      hide GetStep, UpdateStep;
    case _ => hide GetStep, UpdateStep;
  }

  lemma GetKeepsAsking(s: State, b: ThreadId, ok: bool, a: ThreadId, n: NodeId, floor: Settled)
    requires Asks(s, a, n, floor) && b in s.threads && s.threads[b].Getting?
    ensures Asks(GetStep(s, b, s.threads[b], ok), a, n, floor)
  {
  }

  lemma UpdateKeepsOthers(s: State, b: ThreadId, ok: bool, a: ThreadId)
    requires b in s.threads && s.threads[b].Updating? && a in s.threads && a != b
    ensures var s' := UpdateStep(s, b, s.threads[b], ok); a in s'.threads && s'.threads[a] == s.threads[a]
  {
  }

  lemma {:induction false} FloorIsKept(init: State, acts: seq<Action>, a: ThreadId, n: NodeId, acts': seq<Action>)
    requires a !in Run(init, acts).threads
    ensures Asks(Run(init, acts + [BeginGet(a, n)] + acts'), a, n, SettledOf(Run(init, acts), n))
  {
    var all, last := acts + [BeginGet(a, n)] + acts', |acts| + |acts'|;
    assert Run(init, all) == Step(Run(init, all[..last]), all[last]);
    if acts' == [] {
      assert all[..last] == acts;
    } else {
      assert all[..last] == acts + [BeginGet(a, n)] + acts'[..|acts'| - 1];
      FloorIsKept(init, acts, a, n, acts'[..|acts'| - 1]);
      StepKeepsAsking(Run(init, all[..last]), all[last], a, n, SettledOf(Run(init, acts), n));
    }
  }

  // ---- when the cached URL is coherent ---------------------------------------------------------------------

  /** Some update of the node, whatever it wrote, has yet to invalidate. */
  ghost predicate WillErase(s: State, n: NodeId) {
    exists a :: a in s.threads && Erases(s.threads[a], n)
  }

  predicate Erases(t: Thread, n: NodeId) { t.Updating? && t.updatePc != Write && t.n == n }

  /** `c` is held for node `n`: it is cached, or a thread has read its URL and will cache it. */
  predicate HeldBy(t: Thread, n: NodeId) { Carries(t, Url) && t.n == n }

  /** Every URL held for the node is the stored one, or an invalidation is on its way. */
  ghost predicate UrlCoherent(s: State, n: NodeId) {
    || WillErase(s, n)
    || ((n in s.clients ==> n in s.creds && s.clients[n].url == s.creds[n].url)
        && (forall a :: a in s.threads && HeldBy(s.threads[a], n) ==> n in s.creds && s.threads[a].seen.url == s.creds[n].url))
  }

  ghost predicate Coherent(s: State) { forall n :: UrlCoherent(s, n) }

  /** A write that changes a URL without a token, on a node whose URL is held and that no one is about to invalidate. */
  ghost predicate SilentWrite(s: State, act: Action) {
    && act.Move? && act.ok && act.a in s.threads
    && var t := s.threads[act.a];
    && t.Updating? && t.updatePc == Write && t.setsUrl && !t.setsToken && t.n in s.creds
    && !WillErase(s, t.n)
    && (t.n in s.clients || exists b :: b in s.threads && HeldBy(s.threads[b], t.n))
  }

  /** One write on a node whose cached URL is current: it stays current, or an invalidation is on its way, exactly
      unless the URL is set without a token and no other update of the node has yet to invalidate. */
  lemma UrlWriteIsCovered(s: State, a: ThreadId)
    requires a in s.threads && s.threads[a].Updating? && s.threads[a].updatePc == Write
    requires var t := s.threads[a]; (t.setsUrl || t.setsToken) && t.n in s.creds && t.n in s.clients && s.clients[t.n].url == s.creds[t.n].url
    ensures var t, s' := s.threads[a], Step(s, Move(a, true));
      t.n in s'.clients && (s'.clients[t.n].url == s'.creds[t.n].url || WillErase(s', t.n)
        <==> !(t.setsUrl && !t.setsToken) || WillErase(s, t.n))
  {
    var t, s' := s.threads[a], Step(s, Move(a, true));
    if t.setsToken { assert Erases(s'.threads[a], t.n); }
    EraseStays(s, s', a);
    EraseStays(s', s, a);
  }

  lemma EraseStays(s: State, s': State, a: ThreadId)
    requires forall b :: b in s.threads && b != a ==> b in s'.threads && s'.threads[b] == s.threads[b]
    ensures forall n :: WillErase(s, n) && !(a in s.threads && Erases(s.threads[a], n)) ==> WillErase(s', n)
  {
    forall n | WillErase(s, n) && !(a in s.threads && Erases(s.threads[a], n)) ensures WillErase(s', n) {
      var b :| b in s.threads && Erases(s.threads[b], n);
      assert b in s'.threads && Erases(s'.threads[b], n);
    }
  }

  ghost predicate CoherentThroughout(init: State, acts: seq<Action>) {
    Coherent(Run(init, acts)) && (acts != [] ==> CoherentThroughout(init, acts[..|acts| - 1]))
  }

  ghost predicate NeverSilent(init: State, acts: seq<Action>) {
    acts != [] ==>
      var before := acts[..|acts| - 1];
      NeverSilent(init, before) && !SilentWrite(Run(init, before), acts[|acts| - 1])
  }

  lemma GetKeepsUrl(s: State, a: ThreadId, ok: bool, n: NodeId)
    requires Inv(s, Token) && a in s.threads && s.threads[a].Getting? && UrlCoherent(s, n)
    ensures UrlCoherent(GetStep(s, a, s.threads[a], ok), n)
  {
    var s' := GetStep(s, a, s.threads[a], ok);
    EraseStays(s, s', a);
    assert n in s.clients ==> n in s.creds by { assert NodeOk(s, n, Token); }
    GetKeepsRest(s, a, ok);
    hide Inv, WillErase;
    if !WillErase(s, n) {
      forall b | b in s'.threads && HeldBy(s'.threads[b], n) ensures n in s'.creds && s'.threads[b].seen.url == s'.creds[n].url {
        if b != a { assert HeldBy(s.threads[b], n); }
      }
    }
  }

  lemma UpdateKeepsUrl(s: State, a: ThreadId, ok: bool, n: NodeId)
    requires Inv(s, Token) && a in s.threads && s.threads[a].Updating? && UrlCoherent(s, n)
    ensures var s' := UpdateStep(s, a, s.threads[a], ok);
      UrlCoherent(s', n) <==> !(s.threads[a].n == n && SilentWrite(s, Move(a, ok)))
  {
    var t, s' := s.threads[a], UpdateStep(s, a, s.threads[a], ok);
    EraseStays(s, s', a);
    EraseStays(s', s, a);
    assert ThreadOk(s, a, t, Token) && NodeOk(s, n, Token);
    if t.updatePc == Write {
      WriteKeepsUrl(s, a, ok, n);
    } else if t.updatePc == Erasing {
      EraseKeepsUrl(s, a, ok, n);
    } else {
      assert Erases(t, t.n) && Erases(s'.threads[a], t.n);
      assert forall b :: b in s'.threads && HeldBy(s'.threads[b], n) ==> b in s.threads && HeldBy(s.threads[b], n);
    }
  }

  lemma WriteKeepsUrl(s: State, a: ThreadId, ok: bool, n: NodeId)
    requires a in s.threads && s.threads[a].Updating? && s.threads[a].updatePc == Write && UrlCoherent(s, n)
    requires forall b :: b in s.threads ==> ThreadOk(s, b, s.threads[b], Token)
    ensures var s' := UpdateStep(s, a, s.threads[a], ok);
      UrlCoherent(s', n) <==> !(s.threads[a].n == n && SilentWrite(s, Move(a, ok)))
  {
    var t, s' := s.threads[a], UpdateStep(s, a, s.threads[a], ok);
    EraseStays(s, s', a);
    EraseStays(s', s, a);
    if s'.threads[a].Updating? { assert Erases(s'.threads[a], t.n); }
    hide WillErase, ThreadOk;
    assert forall b :: b in s'.threads && HeldBy(s'.threads[b], n) ==> b != a && b in s.threads && HeldBy(s.threads[b], n) && s'.threads[b] == s.threads[b];
    if SilentWrite(s, Move(a, ok)) && t.n == n && n !in s.clients {
      var b :| b in s.threads && HeldBy(s.threads[b], n);
      assert b in s'.threads && HeldBy(s'.threads[b], n) && s'.threads[b].seen.url != s'.creds[n].url;
    }
  }

  /** Whoever erases holds the lock, so nobody is in the middle of reading. */
  lemma EraseKeepsUrl(s: State, a: ThreadId, ok: bool, n: NodeId)
    requires a in s.threads && s.threads[a].Updating? && s.threads[a].updatePc == Erasing && UrlCoherent(s, n)
    requires forall b :: b in s.threads ==> ThreadOk(s, b, s.threads[b], Token)
    ensures UrlCoherent(UpdateStep(s, a, s.threads[a], ok), n) && !SilentWrite(s, Move(a, ok))
  {
    var t, s' := s.threads[a], UpdateStep(s, a, s.threads[a], ok);
    EraseStays(s, s', a);
    assert HoldsLock(t) && s.lock == Some(a);
    forall b | b in s'.threads ensures !HeldBy(s'.threads[b], n) {
      if b != a { assert ThreadOk(s, b, s.threads[b], Token); }
    }
    hide WillErase, ThreadOk;
  }

  lemma StepKeepsUrls(s: State, act: Action)
    requires Inv(s, Token) && Coherent(s)
    ensures Coherent(Step(s, act)) <==> !SilentWrite(s, act)
  {
    var s' := Step(s, act);
    if act.Move? && act.a in s.threads && s.threads[act.a].Getting? {
      forall n ensures UrlCoherent(s', n) { GetKeepsUrl(s, act.a, act.ok, n); }
    } else if act.Move? && act.a in s.threads && s.threads[act.a].Updating? {
      forall n ensures UrlCoherent(s', n) <==> !(s.threads[act.a].n == n && SilentWrite(s, act)) { UpdateKeepsUrl(s, act.a, act.ok, n); }
      assert UrlCoherent(s', s.threads[act.a].n) <==> !SilentWrite(s, act);
    } else {
      forall n ensures UrlCoherent(s', n) { BeginKeepsUrl(s, act, n); }
    }
    hide UrlCoherent, Inv, GetStep, UpdateStep;
  }

  lemma BeginKeepsUrl(s: State, act: Action, n: NodeId)
    requires Inv(s, Token) && UrlCoherent(s, n)
    requires !(act.Move? && act.a in s.threads && (s.threads[act.a].Getting? || s.threads[act.a].Updating?))
    ensures UrlCoherent(Step(s, act), n)
  {
    var s' := Step(s, act);
    if act.BeginGet? || act.BeginUpdate? { EraseStays(s, s', act.a); } else { EraseStays(s, s', 0); assert s'.threads == s.threads; }
    assert NodeOk(s, n, Token);
    hide NodeOk, ThreadOk;
    if !WillErase(s, n) {
      forall b | b in s'.threads && HeldBy(s'.threads[b], n) ensures b in s.threads && HeldBy(s.threads[b], n) && s'.threads[b] == s.threads[b] {}
    }
  }

  /** Every URL in the cache, or about to be, is current or on its way out at every point of a run, if and only if no
      step of the run writes a URL silently. */
  lemma {:induction false} CoherentIffNeverSilent(init: State, acts: seq<Action>)
    requires Initial(init)
    ensures CoherentThroughout(init, acts) <==> NeverSilent(init, acts)
  {
    hide Coherent, SilentWrite, Step, Inv;
    if acts == [] {
      InitialIsCoherent(init);
    } else {
      var before := acts[..|acts| - 1];
      CoherentIffNeverSilent(init, before);
      EveryRunIsCarefulAboutTokens(before);
      InitialInv(init, Token);
      RunKeepsInv(init, before, Token);
      if CoherentThroughout(init, before) { StepKeepsUrls(Run(init, before), acts[|acts| - 1]); }
    }
  }

  lemma InitialIsCoherent(init: State)
    requires Initial(init)
    ensures Coherent(init)
  {
  }

  lemma InitialInv(init: State, f: Field)
    requires Initial(init)
    ensures Inv(init, f)
  {
  }

  /** Runs that never set a URL without a token are such runs. */
  lemma {:induction false} CarefulRunsAreNeverSilent(init: State, acts: seq<Action>)
    requires Initial(init) && AllCareful(acts, Url)
    ensures NeverSilent(init, acts)
  {
    if acts != [] {
      var before := acts[..|acts| - 1];
      assert AllCareful(before, Url);
      CarefulRunsAreNeverSilent(init, before);
      RunKeepsInv(init, before, Url);
      NoSilentThread(Run(init, before), acts[|acts| - 1]);
    }
  }

  lemma NoSilentThread(s: State, act: Action)
    requires Inv(s, Url)
    ensures !SilentWrite(s, act)
  {
    if act.Move? && act.a in s.threads { assert ThreadOk(s, act.a, s.threads[act.a], Url); }
  }

  /** A silent write: `getClient` caches a client; the node's URL is then changed, with no token in the request. The
      update ends without invalidating, and the cached client keeps the former URL with nothing pending. */
  lemma UrlChangeLeavesClientStale() returns (init: State, acts: seq<Action>)
    ensures Initial(init)
    ensures var s := Run(init, acts);
      && 0 in s.creds && 0 in s.clients && s.clients[0].url < s.creds[0].url
      && s.lock == None && forall a :: a in s.threads ==> s.threads[a].Got? || s.threads[a].Ended?
  {
    var none := Settled({}, {});
    init, acts := FirstGet();
    acts := Snoc(init, acts, BeginUpdate(2, 0, false, true));
    acts := Snoc(init, acts, Move(2, true));
    assert Run(init, acts) == State(map[0 := Creds(1, 0)], map[0 := Creds(0, 0)], None, map[1 := Got(0, Creds(0, 0), none), 2 := Ended], map[]);
  }

  /** A node is added and its client is fetched once. */
  lemma FirstGet() returns (init: State, acts: seq<Action>)
    ensures Initial(init)
    ensures Run(init, acts) == State(map[0 := Creds(0, 0)], map[0 := Creds(0, 0)], None, map[1 := Got(0, Creds(0, 0), Settled({}, {}))], map[])
  {
    var c, none := Creds(0, 0), Settled({}, {});
    init, acts := FirstLock();
    acts := Snoc(init, acts, Move(1, true));
    acts := Snoc(init, acts, Move(1, true));
    assert Run(init, acts) == State(map[0 := c], map[], Some(1), map[1 := Getting(0, ReadToken, c, none)], map[]);
    acts := Snoc(init, acts, Move(1, true));
    acts := Snoc(init, acts, Move(1, true));
  }

  lemma FirstLock() returns (init: State, acts: seq<Action>)
    ensures Initial(init)
    ensures Run(init, acts) == State(map[0 := Creds(0, 0)], map[], Some(1), map[1 := Getting(0, Recheck, Creds(0, 0), Settled({}, {}))], map[])
  {
    init := State(map[], map[], None, map[], map[]);
    acts := [];
    acts := Snoc(init, acts, AddNode(0));
    acts := Snoc(init, acts, BeginGet(1, 0));
    assert Run(init, acts) == State(map[0 := Creds(0, 0)], map[], None, map[1 := Getting(0, Peek, Creds(0, 0), Settled({}, {}))], map[]);
    acts := Snoc(init, acts, Move(1, true));
    acts := Snoc(init, acts, Move(1, true));
  }

  lemma Snoc(init: State, acts: seq<Action>, act: Action) returns (acts': seq<Action>)
    ensures acts' == acts + [act] && Run(init, acts') == Step(Run(init, acts), act)
  {
    acts' := acts + [act];
    assert acts'[..|acts|] == acts;
  }

  // ---- the cache as the provisioner holds it -----------------------------------------------------------------

  class Clients {
    var clients: map<NodeId, Creds>

    constructor ()
      ensures clients == map[]
    {
      clients := map[];
    }

    method InvalidateClient(n: NodeId)
      modifies this
      ensures clients == old(clients) - {n}
    {
      clients := clients - {n};
    }

    /** `meanwhile` is what other threads have made of the cache between the read lock and the write lock; `None` is a
        lookup that fails, and then nothing is cached. */
    method GetClient(n: NodeId, meanwhile: map<NodeId, Creds>, node: Option<Version>, token: Option<Version>) returns (r: Option<Creds>)
      modifies this
      ensures n in old(clients) ==> r == Some(old(clients)[n]) && clients == old(clients)
      ensures n !in old(clients) && n in meanwhile ==> r == Some(meanwhile[n]) && clients == meanwhile
      ensures n !in old(clients) && n !in meanwhile && (node.None? || token.None?) ==> r == None && clients == meanwhile
      ensures n !in old(clients) && n !in meanwhile && node.Some? && token.Some? ==>
        r == Some(Creds(node.value, token.value)) && clients == meanwhile[n := Creds(node.value, token.value)]
    {
      if n in clients { return Some(clients[n]); }
      clients := meanwhile;
      // Re-check after acquiring the write lock.
      if n in clients { return Some(clients[n]); }
      if node.None? { return None; }
      if token.None? { return None; }
      var client := Creds(node.value, token.value);
      clients := clients[n := client];
      r := Some(client);
    }
  }

  /** The accesses of one thread, with the outcome of each, and nothing in between. */
  function Moves(s: State, a: ThreadId, oks: seq<bool>): State
    decreases |oks|
  {
    if oks == [] then s else Moves(Step(s, Move(a, oks[0])), a, oks[1..])
  }

  lemma {:induction false} DoneStays(s: State, a: ThreadId, oks: seq<bool>)
    requires a in s.threads && (s.threads[a].Got? || s.threads[a].Ended?)
    ensures Moves(s, a, oks) == s
    decreases |oks|
  {
    if oks != [] { DoneStays(s, a, oks[1..]); }
  }

  lemma MovesUnfold(s: State, a: ThreadId, ok: bool, oks: seq<bool>)
    ensures Moves(s, a, [ok] + oks) == Moves(Step(s, Move(a, ok)), a, oks)
  {
    assert ([ok] + oks)[1..] == oks;
  }

  /** The part of a thread's `getClient` under the write lock: a client that is there by now is taken; otherwise one is
      built and cached if both reads answer; if either fails, the cache stays, and in every case the lock is free again. */
  lemma SoloGet(s: State, a: ThreadId, nodeOk: bool, tokenOk: bool)
    requires a in s.threads && s.threads[a].Getting? && s.threads[a].getPc == Locking && s.lock == None
    ensures var t, s' := s.threads[a], Moves(s, a, [true, true, nodeOk, tokenOk, true]);
      && (t.n in s.clients ==> s' == s.(threads := s.threads[a := Got(t.n, s.clients[t.n], t.floor)]))
      && (t.n !in s.clients && nodeOk && tokenOk && t.n in s.creds ==>
          s' == s.(clients := s.clients[t.n := s.creds[t.n]], threads := s.threads[a := Got(t.n, s.creds[t.n], t.floor)]))
      && (t.n !in s.clients && !(nodeOk && tokenOk && t.n in s.creds) ==> s' == s.(threads := s.threads[a := Ended]))
  {
    var t := s.threads[a];
    var s2 := SoloLock(s, a, [nodeOk, tokenOk, true]);
    assert [true, true] + [nodeOk, tokenOk, true] == [true, true, nodeOk, tokenOk, true];
    if t.n in s.clients { DoneStays(s2, a, [nodeOk, tokenOk, true]); } else { SoloBuild(s2, a, nodeOk, tokenOk); }
    hide Step, Moves;
  }

  /** The look under the read lock: a cached client is taken at once, without the write lock. */
  lemma SoloPeek(s: State, a: ThreadId)
    requires a in s.threads && s.threads[a].Getting? && s.threads[a].getPc == Peek && s.lock == None
    ensures var t := s.threads[a];
      Step(s, Move(a, true)) == s.(threads := s.threads[a := if t.n in s.clients then Got(t.n, s.clients[t.n], t.floor) else t.(getPc := Locking)])
  {
  }

  /** The lock is taken and the cache looked at again. */
  lemma SoloLock(s: State, a: ThreadId, oks: seq<bool>) returns (s2: State)
    requires a in s.threads && s.threads[a].Getting? && s.threads[a].getPc == Locking && s.lock == None
    ensures var t := s.threads[a];
      s2 == if t.n in s.clients then s.(threads := s.threads[a := Got(t.n, s.clients[t.n], t.floor)])
        else s.(lock := Some(a), threads := s.threads[a := t.(getPc := ReadNode)])
    ensures Moves(s, a, [true, true] + oks) == Moves(s2, a, oks)
  {
    var t := s.threads[a];
    var s1 := Step(s, Move(a, true));
    s2 := Step(s1, Move(a, true));
    assert s1.threads == s.threads[a := t.(getPc := Recheck)];
    assert s2.threads == s.threads[a := if t.n in s.clients then Got(t.n, s.clients[t.n], t.floor) else t.(getPc := ReadNode)];
    assert [true, true] + oks == [true] + ([true] + oks);
    MovesUnfold(s, a, true, [true] + oks);
    MovesUnfold(s1, a, true, oks);
  }

  lemma SoloBuild(s: State, a: ThreadId, nodeOk: bool, tokenOk: bool)
    requires a in s.threads && s.threads[a].Getting? && s.threads[a].getPc == ReadNode && s.lock == Some(a)
    ensures var t, s' := s.threads[a], Moves(s, a, [nodeOk, tokenOk, true]);
      if nodeOk && tokenOk && t.n in s.creds
      then s' == s.(lock := None, clients := s.clients[t.n := s.creds[t.n]], threads := s.threads[a := Got(t.n, s.creds[t.n], t.floor)])
      else s' == s.(lock := None, threads := s.threads[a := Ended])
  {
    var t := s.threads[a];
    var s1 := Step(s, Move(a, nodeOk));
    assert [nodeOk, tokenOk, true] == [nodeOk] + [tokenOk, true];
    MovesUnfold(s, a, nodeOk, [tokenOk, true]);
    if !nodeOk || t.n !in s.creds {
      assert s1 == s.(lock := None, threads := s.threads[a := Ended]);
      DoneStays(s1, a, [tokenOk, true]);
    } else {
      var read := t.(getPc := ReadToken, seen := t.seen.(url := s.creds[t.n].url));
      assert s1 == s.(threads := s.threads[a := read]);
      SoloToken(s1, a, tokenOk);
      var got := Got(t.n, s.creds[t.n], t.floor);
      assert s1.threads[a := Ended] == s.threads[a := Ended] && s1.threads[a := got] == s.threads[a := got];
    }
  }

  lemma SoloToken(s: State, a: ThreadId, tokenOk: bool)
    requires a in s.threads && s.threads[a].Getting? && s.threads[a].getPc == ReadToken && s.lock == Some(a) && s.threads[a].n in s.creds
    ensures var t, s' := s.threads[a], Moves(s, a, [tokenOk, true]);
      var c := Creds(t.seen.url, s.creds[t.n].token);
      if tokenOk then s' == s.(lock := None, clients := s.clients[t.n := c], threads := s.threads[a := Got(t.n, c, t.floor)])
      else s' == s.(lock := None, threads := s.threads[a := Ended])
  {
    var t := s.threads[a];
    var s1 := Step(s, Move(a, tokenOk));
    assert [tokenOk, true] == [tokenOk] + [true];
    MovesUnfold(s, a, tokenOk, [true]);
    if tokenOk {
      var s2 := Step(s1, Move(a, true));
      MovesUnfold(s1, a, true, []);
      assert [true] + [] == [true];
      assert s2.threads == s.threads[a := Got(t.n, Creds(t.seen.url, s.creds[t.n].token), t.floor)];
    } else {
      DoneStays(s1, a, [true]);
    }
  }

  /** A waiting update's two accesses, with the lock free, are `InvalidateClient`; from then on every `getClient` of
      the node that begins carries what the update wrote in its floor. */
  lemma SoloInvalidate(s: State, a: ThreadId)
    requires a in s.threads && s.threads[a].Updating? && s.threads[a].updatePc == Awaiting && s.lock == None
    ensures var t, s' := s.threads[a], Moves(s, a, [true, true]);
      && s'.clients == s.clients - {t.n} && s'.creds == s.creds && s'.lock == None
      && s'.threads == s.threads[a := Ended]
      && forall f: Field :: Sets(t, f) ==> Of(t.wrote, f) in SettledOf(s', t.n).Of(f)
  {
    var t := s.threads[a];
    var s1 := Step(s, Move(a, true));
    var s2 := Step(s1, Move(a, true));
    assert s1.threads == s.threads[a := t.(updatePc := Erasing)] && s2.threads == s.threads[a := Ended];
    assert [true, true] == [true] + [true] && [true] + [] == [true];
    MovesUnfold(s, a, true, [true]);
    MovesUnfold(s1, a, true, []);
  }

  /** A whole node update, with the lock free: the fields it carries are new and the others as they were, and the cached
      client is gone exactly if a token was among them; an update whose write fails, or that finds no node, changes
      nothing. */
  lemma SoloUpdate(s: State, a: ThreadId, ok: bool)
    requires a in s.threads && s.threads[a].Updating? && s.threads[a].updatePc == Write && s.lock == None
    ensures var t, s' := s.threads[a], Moves(s, a, [ok, true, true]);
      && s'.lock == None && s'.threads == s.threads[a := Ended]
      && s'.creds == (if !ok || t.n !in s.creds then s.creds
        else s.creds[t.n := Creds(s.creds[t.n].url + (if t.setsUrl then 1 else 0), s.creds[t.n].token + (if t.setsToken then 1 else 0))])
      && s'.clients == if ok && t.n in s.creds && t.setsToken then s.clients - {t.n} else s.clients
  {
    var t := s.threads[a];
    var s1 := Step(s, Move(a, ok));
    assert [ok, true, true] == [ok] + [true, true];
    MovesUnfold(s, a, ok, [true, true]);
    WriteMoves(s, a, ok);
    hide Step;
    if ok && t.n in s.creds && t.setsToken {
      SoloInvalidate(s1, a);
      assert s1.threads[a := Ended] == s.threads[a := Ended];
    } else {
      DoneStays(s1, a, [true, true]);
    }
  }

  lemma WriteMoves(s: State, a: ThreadId, ok: bool)
    requires a in s.threads && s.threads[a].Updating? && s.threads[a].updatePc == Write
    ensures var t, s1 := s.threads[a], Step(s, Move(a, ok));
      && s1.lock == s.lock && s1.clients == s.clients
      && s1.creds == (if !ok || t.n !in s.creds then s.creds
        else s.creds[t.n := Creds(s.creds[t.n].url + (if t.setsUrl then 1 else 0), s.creds[t.n].token + (if t.setsToken then 1 else 0))])
      && a in s1.threads && s1.threads == s.threads[a := s1.threads[a]]
      && (if ok && t.n in s.creds && t.setsToken then s1.threads[a].Updating? && s1.threads[a].updatePc == Awaiting && s1.threads[a].n == t.n
          else s1.threads[a] == Ended)
  {
    if s.threads[a].n in s.creds { assert s.creds[s.threads[a].n := s.creds[s.threads[a].n]] == s.creds; }
  }
}
