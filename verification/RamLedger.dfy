/** The node's allocation figure against the reservations that are really out.

    `Total(w.ledger, n)` sums the reservations on node `n` that no successful release has returned.
    The figure never exceeds it, and equals it exactly as long as nobody releases a reservation
    twice. A second release happens only when a tenant whose provisioning failed is deleted. */
module RamLedger {
  import opened Stores
  import opened ProvisionJob
  import opened ControlPlane
  import opened Safety
  import opened Guarantees
  import opened JobHistory
  import opened Wrappers

  // ---- sums over the ledger ----------------------------------------------------------------------------

  function Share(r: Reservation, n: NodeId): nat { if r.node == n then r.ram else 0 }

  ghost function Total(l: Ledger, n: NodeId): nat
    decreases |l|
  {
    if l == map[] then 0 else var t :| t in l; Share(l[t], n) + Total(l - {t}, n)
  }

  /** Any entry can be taken out first. */
  lemma {:induction false} TotalWithout(l: Ledger, n: NodeId, t: TenantId)
    requires t in l
    ensures Total(l, n) == Share(l[t], n) + Total(l - {t}, n)
    decreases |l|
  {
    var u :| u in l && Total(l, n) == Share(l[u], n) + Total(l - {u}, n);
    if u != t {
      TotalWithout(l - {u}, n, t);
      TotalWithout(l - {t}, n, u);
      assert l - {u} - {t} == l - {t} - {u};
    }
  }

  lemma TotalWith(l: Ledger, n: NodeId, t: TenantId, r: Reservation)
    requires t !in l
    ensures Total(l[t := r], n) == Share(r, n) + Total(l, n)
  {
    TotalWithout(l[t := r], n, t);
    assert l[t := r] - {t} == l;
  }

  lemma {:induction false} TotalOfNone(l: Ledger, n: NodeId)
    requires forall t :: t in l ==> l[t].node != n
    ensures Total(l, n) == 0
    decreases |l|
  {
    if l != map[] {
      var t :| t in l;
      TotalWithout(l, n, t);
      TotalOfNone(l - {t}, n);
    }
  }

  // ---- the bounds ----------------------------------------------------------------------------------------

  ghost predicate Bounded(w: World) {
    forall n :: n in w.nodes ==>
      0 <= w.nodes[n].used <= w.nodes[n].total && w.nodes[n].used <= Total(w.ledger, n)
  }

  ghost predicate Exact(w: World) {
    forall n :: n in w.nodes ==> w.nodes[n].used == Total(w.ledger, n)
  }

  /** The releases a call may be about to make, with the tenant, node and amount. */
  datatype Return = Nothing | Return(t: TenantId, n: NodeId, ram: nat)

  function Returns(x: Actor): Return {
    match x
    case Creating(t, n, _, ram, pc) => if pc == Returning then Return(t, n, ram) else Nothing
    case Working(j) => if j.pc == ReleaseRam then Return(j.tid, j.nid, j.ram) else Nothing
    case Deleting(t, snap, ram, pc) => if pc == Freeing then Return(t, snap.node, ram) else Nothing
    case _ => Nothing
  }

  predicate Reserves(x: Actor) { x.Creating? && x.cPc == Reserving }

  ghost predicate SameRam(w: World, w': World) { w.nodes == w'.nodes && w.ledger == w'.ledger }

  /** Node figures and ledger move only through a reservation or a release. */
  lemma RamMoves(w: World, x: Actor, o: Outcome)
    ensures var w' := ActorWorld(w, x, o);
      match Returns(x)
      case Return(t, n, ram) => SameRam(w', w.Freed(n, ram, t, o.Ok?))
      case Nothing => !Reserves(x) ==> SameRam(w', w)
  {
    hide CreateWorld, WorldNext, DeleteWorld, ToggleWorld;
    match x
    case Creating(_, _, _, _, pc) => if pc != Reserving { CreateMovesRam(w, x, o); }
    case Working(j) => WorkMovesRam(w, j, o);
    case Deleting(_, _, _, _) => DeleteMovesRam(w, x, o);
    case Toggling(_, _, _, _) => ToggleMovesRam(w, x, o);
    case Idle =>
  }

  lemma CreateMovesRam(w: World, x: Actor, o: Outcome)
    requires x.Creating? && x.cPc != Reserving
    ensures SameRam(CreateWorld(w, x, o), if x.cPc == Returning then w.Freed(x.cNid, x.cRam, x.cTid, o.Ok?) else w)
  {
  }

  lemma DeleteMovesRam(w: World, x: Actor, o: Outcome)
    requires x.Deleting?
    ensures SameRam(DeleteWorld(w, x, o), if x.dPc == Freeing then w.Freed(x.snap.node, x.dRam, x.dTid, o.Ok?) else w)
  {
    hide Release, Transition, DeleteBox;
  }

  lemma ToggleMovesRam(w: World, x: Actor, o: Outcome)
    requires x.Toggling?
    ensures SameRam(ToggleWorld(w, x, o), w)
  {
    hide Transition;
  }

  lemma WorkMovesRam(w: World, j: Job, o: Outcome)
    ensures SameRam(WorldNext(w, j, o), if j.pc == ReleaseRam then w.Freed(j.nid, j.ram, j.tid, o.Ok?) else w)
  {
    hide Release, MarkActive, MarkError, CloneBox, DeleteBox;
  }

  lemma ReserveKeepsRam(w: World, n: NodeId, ram: nat, t: TenantId, up: bool)
    requires Bounded(w) && t !in w.ledger
    ensures var (nodes', ledger', _) := Reserve(w.nodes, w.ledger, n, ram, t, up);
      var w' := w.(nodes := nodes', ledger := ledger');
      Bounded(w') && (Exact(w) ==> Exact(w'))
  {
    forall m { TotalWith(w.ledger, m, t, Reservation(n, ram)); }
  }

  /** Returning a reservation that is out keeps the figure exact; returning one that is not can only
      make it too small. */
  lemma FreedKeepsRam(w: World, n: NodeId, ram: nat, t: TenantId, up: bool)
    requires Bounded(w)
    requires t in w.ledger ==> w.ledger[t] == Reservation(n, ram)
    ensures Bounded(w.Freed(n, ram, t, up))
    ensures Exact(w) && (t in w.ledger || !up || n !in w.nodes || w.nodes[n].used == 0) ==> Exact(w.Freed(n, ram, t, up))
    ensures Exact(w) && t !in w.ledger && up && n in w.nodes && w.nodes[n].used > 0 && ram > 0 ==> !Exact(w.Freed(n, ram, t, up))
    ensures Exact(w) && t in w.ledger && n in w.nodes ==> w.nodes[n].used >= ram
  {
    if t in w.ledger {
      forall m ensures Total(w.ledger, m) == Share(Reservation(n, ram), m) + Total(w.ledger - {t}, m) {
        TotalWithout(w.ledger, m, t);
      }
    } else {
      assert w.ledger - {t} == w.ledger;
      if up && n in w.nodes {
        assert w.Freed(n, ram, t, up).nodes[n].used == Floored(w.nodes[n].used - ram);
      }
    }
  }

  /** What is returned is what was reserved, on a node that exists. */
  lemma ReturnsWhatWasReserved(s: State, a: ActorId)
    requires Inv(s) && a in s.actors && Returns(s.actors[a]).Return?
    ensures var r := Returns(s.actors[a]);
      && (r.t in s.w.ledger ==> s.w.ledger[r.t] == Reservation(r.n, r.ram))
      && (r.t !in s.w.ledger ==> r.ram > 0)
      && r.n in s.w.nodes
  {
    var x, r := s.actors[a], Returns(s.actors[a]);
    assert ActorOk(s.w, x);
    assert r.t in s.w.tenants ==> RowOk(s.w, r.t);
  }

  // ---- releasing twice -----------------------------------------------------------------------------------

  /** The call is a release that goes through, for a reservation that has already been returned, and
      the node has something left to subtract from. */
  predicate ReleasesTwice(s: State, act: Action) {
    act.Move? && act.o.Ok? && act.a in s.actors &&
    match Returns(s.actors[act.a])
    case Nothing => false
    case Return(t, n, ram) => t !in s.w.ledger && ram > 0 && n in s.w.nodes && s.w.nodes[n].used > 0
  }

  /** The release is floored at zero. */
  predicate FloorFires(s: State, act: Action) {
    act.Move? && act.o.Ok? && act.a in s.actors &&
    match Returns(s.actors[act.a])
    case Nothing => false
    case Return(t, n, ram) => n in s.w.nodes && s.w.nodes[n].used < ram
  }

  lemma MoveKeepsRam(s: State, a: ActorId, o: Outcome)
    requires Inv(s) && Bounded(s.w) && a in s.actors
    ensures Bounded(Moved(s, a, o).w)
    ensures Exact(s.w) ==> (Exact(Moved(s, a, o).w) <==> !ReleasesTwice(s, Move(a, o)))
  {
    var x := s.actors[a];
    RamMoves(s.w, x, o);
    if Returns(x).Return? {
      var r := Returns(x);
      ReturnsWhatWasReserved(s, a);
      FreedKeepsRam(s.w, r.n, r.ram, r.t, o.Ok?);
      SameFigures(s.w.Freed(r.n, r.ram, r.t, o.Ok?), ActorWorld(s.w, x, o));
    } else if Reserves(x) {
      assert ActorOk(s.w, x);
      ReserveKeepsRam(s.w, x.cNid, x.cRam, x.cTid, o.Ok?);
      var (nodes', ledger', _) := Reserve(s.w.nodes, s.w.ledger, x.cNid, x.cRam, x.cTid, o.Ok?);
      SameFigures(s.w.(nodes := nodes', ledger := ledger'), ActorWorld(s.w, x, o));
    } else {
      SameFigures(s.w, ActorWorld(s.w, x, o));
    }
  }

  lemma SameFigures(w: World, w': World)
    requires SameRam(w, w')
    ensures (Bounded(w) <==> Bounded(w')) && (Exact(w) <==> Exact(w'))
  {
  }

  lemma StepKeepsRam(s: State, act: Action)
    requires Inv(s) && Bounded(s.w)
    ensures Bounded(Step(s, act).w)
    ensures Exact(s.w) ==> (Exact(Step(s, act).w) <==> !ReleasesTwice(s, act))
  {
    match act
    case Move(a, o) =>
      if a in s.actors {
        if Blocked(s, s.actors[a]) { assert Returns(s.actors[a]).Nothing?; } else { MoveKeepsRam(s, a, o); }
      }
    case AddNode(n, total) =>
      if n !in s.w.nodes { TotalOfNone(s.w.ledger, n); }
    case SetTotal(n, total) =>
    case _ => assert Step(s, act).w == s.w;
  }

  // ---- over whole runs -----------------------------------------------------------------------------------

  lemma {:induction false} RunKeepsBounds(init: State, acts: seq<Action>)
    requires Initial(init)
    ensures Inv(Run(init, acts)) && Bounded(Run(init, acts).w)
  {
    if acts != [] {
      RunKeepsBounds(init, acts[..|acts| - 1]);
      StepKeepsInv(Run(init, acts[..|acts| - 1]), acts[|acts| - 1]);
      StepKeepsRam(Run(init, acts[..|acts| - 1]), acts[|acts| - 1]);
    }
  }

  /** In every reachable state a node's allocation lies between zero and its total, and never exceeds
      the reservations that are out. */
  lemma AllocationIsBounded(s: State)
    requires Reachable(s)
    ensures Bounded(s.w)
  {
    var init, acts :| Initial(init) && s == Run(init, acts);
    RunKeepsBounds(init, acts);
  }

  ghost predicate ExactThroughout(init: State, acts: seq<Action>) {
    Exact(Run(init, acts).w) && (acts != [] ==> ExactThroughout(init, acts[..|acts| - 1]))
  }

  ghost predicate NeverReleasesTwice(init: State, acts: seq<Action>) {
    acts != [] ==>
      var before := acts[..|acts| - 1];
      NeverReleasesTwice(init, before) && !ReleasesTwice(Run(init, before), acts[|acts| - 1])
  }

  /** The figure equals the reservations that are out, at every point of a run, if and only if no call
      of the run releases a reservation a second time. */
  lemma {:induction false} ExactIffNothingReleasedTwice(init: State, acts: seq<Action>)
    requires Initial(init)
    ensures ExactThroughout(init, acts) <==> NeverReleasesTwice(init, acts)
  {
    if acts != [] {
      var before := acts[..|acts| - 1];
      ExactIffNothingReleasedTwice(init, before);
      RunKeepsBounds(init, before);
      StepKeepsRam(Run(init, before), acts[|acts| - 1]);
    }
  }

  /** No tenant without a container, that is no tenant whose provisioning failed, has been deleted. */
  ghost predicate NoFailedTenantDeleted(s: State) {
    forall t :: t in s.w.tenants && (s.w.tenants[t].status == Status.Deleting || s.w.tenants[t].status == Deleted) ==>
      s.w.tenants[t].lxcId.Some?
  }

  ghost predicate NeverDeletesFailed(init: State, acts: seq<Action>) {
    NoFailedTenantDeleted(Run(init, acts)) && (acts != [] ==> NeverDeletesFailed(init, acts[..|acts| - 1]))
  }

  lemma NoSecondRelease(s: State, act: Action)
    requires Inv(s) && NoFailedTenantDeleted(s)
    ensures !ReleasesTwice(s, act)
  {
    if act.Move? && act.a in s.actors {
      assert ActorOk(s.w, s.actors[act.a]);
    }
  }

  /** On a run that deletes no tenant whose provisioning failed, the figure is exact and the zero floor
      never fires. */
  lemma {:induction false} ExactWithoutFailedDeletes(init: State, acts: seq<Action>)
    requires Initial(init) && NeverDeletesFailed(init, acts)
    ensures ExactThroughout(init, acts)
    ensures forall act :: !FloorFires(Run(init, acts), act)
  {
    RunKeepsBounds(init, acts);
    if acts != [] {
      var before := acts[..|acts| - 1];
      ExactWithoutFailedDeletes(init, before);
      RunKeepsBounds(init, before);
      NoSecondRelease(Run(init, before), acts[|acts| - 1]);
      StepKeepsRam(Run(init, before), acts[|acts| - 1]);
    }
    forall act ensures !FloorFires(Run(init, acts), act) { NoFloor(Run(init, acts), act); }
  }

  lemma NoFloor(s: State, act: Action)
    requires Inv(s) && Bounded(s.w) && Exact(s.w) && NoFailedTenantDeleted(s)
    ensures !FloorFires(s, act)
  {
    if FloorFires(s, act) {
      NoSecondRelease(s, act);
      var r := Returns(s.actors[act.a]);
      ReturnsWhatWasReserved(s, act.a);
      FreedKeepsRam(s.w, r.n, r.ram, r.t, true);
    }
  }

  // ---- when a release is the second one --------------------------------------------------------------------

  /** No release that the run attempts is lost to the database. */
  ghost predicate ReleasesGoThrough(init: State, acts: seq<Action>) {
    acts != [] ==>
      var before := acts[..|acts| - 1];
      ReleasesGoThrough(init, before) && GoesThrough(Run(init, before), acts[|acts| - 1])
  }

  predicate GoesThrough(s: State, act: Action) {
    act.Move? && act.a in s.actors && Returns(s.actors[act.a]).Return? ==> act.o.Ok?
  }

  /** The goroutine of `x` is done, has failed its tenant and had RAM to return. */
  predicate HasFailed(w: World, x: Actor) {
    x.Working? && x.job.pc == Finished && x.job.ram > 0 && x.job.tid in w.tenants && w.tenants[x.job.tid].lxcId.None?
  }

  ghost predicate FailuresReturned(s: State) {
    forall a :: a in s.actors && HasFailed(s.w, s.actors[a]) ==> s.actors[a].job.tid !in s.w.ledger
  }

  lemma MoveKeepsReturned(s: State, a: ActorId, o: Outcome)
    requires Inv(s) && JobsTrue(s) && FailuresReturned(s) && a in s.actors && GoesThrough(s, Move(a, o))
    requires JobsTrue(Moved(s, a, o))
    ensures FailuresReturned(Moved(s, a, o))
  {
    var x, s' := s.actors[a], Moved(s, a, o);
    forall b | b in s'.actors && HasFailed(s'.w, s'.actors[b]) ensures s'.actors[b].job.tid !in s'.w.ledger {
      if b != a {
        OtherStaysReturned(s, a, o, b);
      } else {
        assert JobTrue(s'.w, s'.actors[a].job);
        if x.Working? { FailedHasReturned(s, a, o); } else { BecomesWorking(s.w, x, o); }
      }
    }
    hide JobTrue, JobOk, WorldNext, JobNext, DeleteWorld, ToggleWorld;
  }

  lemma OtherStaysReturned(s: State, a: ActorId, o: Outcome, b: ActorId)
    requires Inv(s) && JobsTrue(s) && FailuresReturned(s) && a in s.actors && b in s.actors && b != a
    requires var w' := ActorWorld(s.w, s.actors[a], o); HasFailed(w', s.actors[b]) && JobTrue(w', s.actors[b].job)
    ensures s.actors[b].job.tid !in ActorWorld(s.w, s.actors[a], o).ledger
  {
    assert JobTrue(s.w, s.actors[b].job) && Apart(s.actors[a], s.actors[b]);
    OnlyCreatesReserve(s.w, s.actors[a], o);
    hide Inv, ActorWorld, KnowsNetwork;
    assert HasFailed(s.w, s.actors[b]);
  }

  /** The ledger gains an entry only for a tenant that is being created. */
  lemma OnlyCreatesReserve(w: World, x: Actor, o: Outcome)
    ensures forall t :: t in ActorWorld(w, x, o).ledger && t !in w.ledger ==> Origin(x) == Some(t)
  {
    RamMoves(w, x, o);
    if x.Creating? {} else { hide ActorWorld; }
  }

  /** A goroutine that finishes without having activated its tenant has just returned its RAM, or had before. */
  lemma FailedHasReturned(s: State, a: ActorId, o: Outcome)
    requires Inv(s) && FailuresReturned(s) && a in s.actors && s.actors[a].Working? && GoesThrough(s, Move(a, o))
    requires var w', x' := WorldNext(s.w, s.actors[a].job, o), Working(JobNext(s.w, s.actors[a].job, o)); HasFailed(w', x') && JobTrue(w', x'.job)
    requires JobTrue(s.w, s.actors[a].job)
    ensures s.actors[a].job.tid !in WorldNext(s.w, s.actors[a].job, o).ledger
  {
    var j := s.actors[a].job;
    assert WorkOk(s.w, j) by { assert ActorOk(s.w, s.actors[a]); }
    if j.pc == Tail {
      assert Forward(j)[|Forward(j)| - 1] == Activated(j.vmid);
      assert HasActivated(j);
      QuietIsTrue(s.w, j, o);
    } else if j.pc == Finished {
      assert WorldNext(s.w, j, o) == s.w && JobNext(s.w, j, o) == Land(j, o.Ok?, s.w.ssh, j.pid in s.w.projects && s.w.projects[j.pid].cidr, if o.OkId? then o.id else 0);
      assert HasFailed(s.w, s.actors[a]);
    } else if j.pc == ReleaseRam {
      AfterRelease(s.w, j, o);
    } else {
      FinishesFrom(s.w, j, o);
    }
  }

  lemma FinishesFrom(w: World, j: Job, o: Outcome)
    requires JobNext(w, j, o).pc == Finished && JobNext(w, j, o).ram > 0
    ensures j.pc == ReleaseRam || j.pc == Tail || j.pc == Finished
  {
    hide Succeeds, MainEffect, UndoEffect;
  }

  lemma {:induction false} RunKeepsReturned(init: State, acts: seq<Action>)
    requires Initial(init) && ReleasesGoThrough(init, acts)
    ensures FailuresReturned(Run(init, acts))
  {
    if acts != [] {
      var before, act := acts[..|acts| - 1], acts[|acts| - 1];
      var s := Run(init, before);
      RunKeepsReturned(init, before);
      RunKeepsTrue(init, before);
      RunKeepsTrue(init, acts);
      if act.Move? && act.a in s.actors && !Blocked(s, s.actors[act.a]) {
        MoveKeepsReturned(s, act.a, act.o);
      } else {
        OthersKeepReturned(s, act);
      }
      hide FailuresReturned, JobsTrue, Inv;
    }
  }

  lemma OthersKeepReturned(s: State, act: Action)
    requires FailuresReturned(s) && !(act.Move? && act.a in s.actors && !Blocked(s, s.actors[act.a]))
    ensures FailuresReturned(Step(s, act))
  {
    var s' := Step(s, act);
    assert s'.w.tenants == s.w.tenants && s'.w.ledger == s.w.ledger;
    forall b | b in s'.actors && HasFailed(s'.w, s'.actors[b]) ensures s'.actors[b].job.tid !in s'.w.ledger {
      assert b in s.actors && s'.actors[b] == s.actors[b] && HasFailed(s.w, s.actors[b]);
    }
  }

  /** On a run whose releases go through, deleting a tenant that has no container and whose goroutine is done returns
      its RAM a second time: the figure stays exact if and only if the node had nothing left to give. */
  lemma DeletingAFailureIsExactIff(init: State, acts: seq<Action>, d: ActorId, a: ActorId)
    requires Initial(init) && ReleasesGoThrough(init, acts)
    requires var s := Run(init, acts);
      && d in s.actors && s.actors[d].Deleting? && s.actors[d].dPc == Freeing
      && a in s.actors && HasFailed(s.w, s.actors[a]) && s.actors[a].job.tid == s.actors[d].dTid
    ensures var s := Run(init, acts); var n := s.actors[d].snap.node;
      && n in s.w.nodes
      && (Exact(s.w) ==> (Exact(Step(s, Move(d, Ok)).w) <==> s.w.nodes[n].used == 0))
  {
    var s := Run(init, acts);
    RunKeepsReturned(init, acts);
    RunKeepsBounds(init, acts);
    ReturnsWhatWasReserved(s, d);
    StepKeepsRam(s, Move(d, Ok));
    hide Exact, Step, Inv;
  }

  // ---- the restriction is needed --------------------------------------------------------------------------

  function Steps(s: State, acts: seq<Action>): State
    decreases |acts|
  {
    if acts == [] then s else Steps(Step(s, acts[0]), acts[1..])
  }

  lemma {:induction false} StepsExtendRun(init: State, pre: seq<Action>, acts: seq<Action>)
    ensures Steps(Run(init, pre), acts) == Run(init, pre + acts)
    decreases |acts|
  {
    if acts == [] {
      assert pre + acts == pre;
    } else {
      assert (pre + [acts[0]])[..|pre|] == pre;
      StepsExtendRun(init, pre + [acts[0]], acts[1..]);
      assert pre + [acts[0]] + acts[1..] == pre + acts;
    }
  }

  const TWO_CREATES := [AddNode(0, 100), BeginCreate(1, 1, 0, 0), Move(1, Ok), BeginCreate(2, 2, 0, 0), Move(2, Ok)]
  const FIRST_FAILS := [Move(1, Ok), Move(1, Ok), Move(1, Ok), Move(1, Fail), Move(1, Ok), Move(1, Ok)]
  const FIRST_DELETED := [BeginDelete(3, 1), Move(3, Ok), Move(3, Ok), Move(3, Ok)]

  function EmptyPlane(): State {
    State(World(map[], map[], map[], map[], map[0 := Project(50, false)], false), map[], 0, 0)
  }

  function TwoReserved(): State {
    State(EmptyPlane().w.(nodes := map[0 := NodeRow(100, 100)], ledger := map[1 := Reservation(0, 50), 2 := Reservation(0, 50)]),
          map[1 := Creating(1, 0, 0, 50, Inserting), 2 := Creating(2, 0, 0, 50, Inserting)], 0, 0)
  }

  function FirstFailed(): State {
    var j := NewJob(1, 0, 0, 50).(pc := Finished, undo := [ErrorIssued, ReleaseIssued]);
    State(EmptyPlane().w.(tenants := map[1 := TenantRow(0, 0, Error, None)],
                          nodes := map[0 := NodeRow(100, 50)], ledger := map[2 := Reservation(0, 50)]),
          map[1 := Working(j), 2 := Creating(2, 0, 0, 50, Inserting)], 0, 0)
  }

  lemma ReserveTwo()
    ensures Steps(EmptyPlane(), TWO_CREATES) == TwoReserved()
  {
    var s1 := Step(EmptyPlane(), AddNode(0, 100));
    var s2 := Step(s1, BeginCreate(1, 1, 0, 0));
    assert s2 == s1.(actors := map[1 := Creating(1, 0, 0, 50, Reserving)]);
    var s3 := Step(s2, Move(1, Ok));
    var s4 := Step(s3, BeginCreate(2, 2, 0, 0));
    assert Steps(s4, [Move(2, Ok)]) == Step(s4, Move(2, Ok)) == TwoReserved();
    assert Steps(s3, [BeginCreate(2, 2, 0, 0), Move(2, Ok)]) == TwoReserved();
  }

  function FirstFailing(): State {
    State(TwoReserved().w.(tenants := map[1 := TenantRow(0, 0, Provisioning, None)]),
          map[1 := Working(NewJob(1, 0, 0, 50).At(SetError)), 2 := TwoReserved().actors[2]], 1, 1)
  }

  lemma FailFirst()
    ensures Steps(TwoReserved(), FIRST_FAILS) == FirstFailed()
  {
    var mid := InsertFirst();
    LookUpFirst(mid);
    MarkFirst();
    var rest := [Move(1, Ok), Move(1, Fail), Move(1, Ok), Move(1, Ok)];
    assert FIRST_FAILS == [Move(1, Ok), Move(1, Ok)] + rest && rest == [Move(1, Ok), Move(1, Fail)] + [Move(1, Ok), Move(1, Ok)];
    hide Step, TwoReserved, FirstFailing, FirstFailed;
    StepsInParts(TwoReserved(), [Move(1, Ok), Move(1, Ok)], rest);
    StepsInParts(mid, [Move(1, Ok), Move(1, Fail)], [Move(1, Ok), Move(1, Ok)]);
  }

  lemma {:induction false} StepsInParts(s: State, xs: seq<Action>, ys: seq<Action>)
    ensures Steps(s, xs + ys) == Steps(Steps(s, xs), ys)
    decreases |xs|
  {
    hide Step;
    if xs == [] {
      assert xs + ys == ys;
    } else {
      StepsInParts(Step(s, xs[0]), xs[1..], ys);
      assert (xs + ys)[1..] == xs[1..] + ys;
    }
  }

  lemma TwoSteps(s: State, x: Action, y: Action)
    ensures Steps(s, [x, y]) == Step(Step(s, x), y)
  {
    hide Step;
    assert [x, y][1..] == [y] && [y][1..] == [];
    assert Steps(Step(s, x), [y]) == Steps(Step(Step(s, x), y), []);
  }

  lemma InsertFirst() returns (mid: State)
    ensures Steps(TwoReserved(), [Move(1, Ok), Move(1, Ok)]) == mid
    ensures mid == State(TwoReserved().w.(tenants := map[1 := TenantRow(0, 0, Provisioning, None)]),
      map[1 := Working(NewJob(1, 0, 0, 50)), 2 := TwoReserved().actors[2]], 0, 1)
  {
    var s0 := TwoReserved();
    TwoSteps(s0, Move(1, Ok), Move(1, Ok));
    mid := Step(Step(s0, Move(1, Ok)), Move(1, Ok));
    assert mid.w.tenants == map[1 := TenantRow(0, 0, Provisioning, None)];
    assert mid.actors == map[1 := Working(NewJob(1, 0, 0, 50)), 2 := s0.actors[2]];
  }

  lemma LookUpFirst(mid: State)
    requires mid == State(TwoReserved().w.(tenants := map[1 := TenantRow(0, 0, Provisioning, None)]),
      map[1 := Working(NewJob(1, 0, 0, 50)), 2 := TwoReserved().actors[2]], 0, 1)
    ensures Steps(mid, [Move(1, Ok), Move(1, Fail)]) == FirstFailing()
  {
    TwoSteps(mid, Move(1, Ok), Move(1, Fail));
    var s3 := Step(mid, Move(1, Ok));
    assert s3.actors == map[1 := Working(NewJob(1, 0, 0, 50).At(GetProject)), 2 := mid.actors[2]] && s3.sem == 1 && s3.wg == 1 && s3.w == mid.w;
    var s4 := Step(s3, Move(1, Fail));
    assert s4.actors == FirstFailing().actors && s4.w == mid.w;
  }

  lemma MarkFirst()
    ensures Steps(FirstFailing(), [Move(1, Ok), Move(1, Ok)]) == FirstFailed()
  {
    MarkStep();
    ReleaseStep();
    hide Step;
    TwoSteps(FirstFailing(), Move(1, Ok), Move(1, Ok));
  }

  function FirstMarked(): State {
    var j := NewJob(1, 0, 0, 50).(pc := ReleaseRam, undo := [ErrorIssued]);
    State(TwoReserved().w.(tenants := map[1 := TenantRow(0, 0, Error, None)]),
          map[1 := Working(j), 2 := TwoReserved().actors[2]], 1, 1)
  }

  lemma JobMoves(s: State, a: ActorId, j: Job, o: Outcome)
    requires a in s.actors && s.actors[a] == Working(j) && j.pc != Queued
    ensures var s', k := Step(s, Move(a, o)), Working(JobNext(s.w, j, o));
      s' == State(WorldNext(s.w, j, o), s.actors[a := k], Taken(Inside(Working(j)), Inside(k), s.sem), Taken(Pending(Working(j)), Pending(k), s.wg))
  {
    hide WorldNext, JobNext;
  }

  lemma MarkStep()
    ensures Step(FirstFailing(), Move(1, Ok)) == FirstMarked()
  {
    var s, j := FirstFailing(), NewJob(1, 0, 0, 50).At(SetError);
    JobMoves(s, 1, j, Ok);
    hide Step;
    assert JobNext(s.w, j, Ok) == j.(pc := ReleaseRam, undo := [ErrorIssued]);
    assert WorldNext(s.w, j, Ok).tenants == map[1 := TenantRow(0, 0, Error, None)];
    assert Step(s, Move(1, Ok)).actors == FirstMarked().actors;
  }

  lemma ReleaseStep()
    ensures Step(FirstMarked(), Move(1, Ok)) == FirstFailed()
  {
    var s, j := FirstMarked(), NewJob(1, 0, 0, 50).(pc := ReleaseRam, undo := [ErrorIssued]);
    JobMoves(s, 1, j, Ok);
    hide Step;
    assert JobNext(s.w, j, Ok) == j.(pc := Finished, undo := [ErrorIssued, ReleaseIssued]);
    assert WorldNext(s.w, j, Ok) == s.w.Freed(0, 50, 1, true);
    assert Step(s, Move(1, Ok)).w == FirstFailed().w;
    assert Step(s, Move(1, Ok)).actors == FirstFailed().actors;
  }

  lemma DeleteFirst()
    ensures var w := Steps(FirstFailed(), FIRST_DELETED).w;
      w.nodes == map[0 := NodeRow(100, 0)] && w.ledger == map[2 := Reservation(0, 50)]
  {
    var mid := BeginDeleteFirst();
    FreeFirst(mid);
    assert FIRST_DELETED == [BeginDelete(3, 1), Move(3, Ok)] + [Move(3, Ok), Move(3, Ok)];
    hide Step, FirstFailed;
    StepsInParts(FirstFailed(), [BeginDelete(3, 1), Move(3, Ok)], [Move(3, Ok), Move(3, Ok)]);
  }

  lemma BeginDeleteFirst() returns (mid: State)
    ensures Steps(FirstFailed(), [BeginDelete(3, 1), Move(3, Ok)]) == mid
    ensures mid == FirstFailed().(actors := FirstFailed().actors[3 := Actor.Deleting(1, TenantRow(0, 0, Error, None), 50, Marking)])
  {
    var s0 := FirstFailed();
    TwoSteps(s0, BeginDelete(3, 1), Move(3, Ok));
    var s1 := Step(s0, BeginDelete(3, 1));
    assert s1 == s0.(actors := s0.actors[3 := Actor.Deleting(1, TenantRow(0, 0, Error, None), 0, Looking)]);
    mid := Step(s1, Move(3, Ok));
    assert mid.actors == s0.actors[3 := Actor.Deleting(1, TenantRow(0, 0, Error, None), 50, Marking)];
  }

  lemma FreeFirst(mid: State)
    requires mid == FirstFailed().(actors := FirstFailed().actors[3 := Actor.Deleting(1, TenantRow(0, 0, Error, None), 50, Marking)])
    ensures var w := Steps(mid, [Move(3, Ok), Move(3, Ok)]).w;
      w.nodes == map[0 := NodeRow(100, 0)] && w.ledger == map[2 := Reservation(0, 50)]
  {
    TwoSteps(mid, Move(3, Ok), Move(3, Ok));
    var s3 := Step(mid, Move(3, Ok));
    assert s3.w.nodes == mid.w.nodes && s3.w.ledger == mid.w.ledger;
    assert s3.actors[3] == Actor.Deleting(1, TenantRow(0, 0, Error, None), 50, Freeing);
    assert Step(s3, Move(3, Ok)).w == s3.w.Freed(0, 50, 1, true);
  }

  /** Two tenants of 50 MB on one node. The first fails at its project lookup and returns its 50 MB; it
      is then deleted and returns them again. The second still holds its 50 MB, but the node counts 0. */
  lemma DeletingAFailedTenantReleasesTwice()
    ensures Initial(EmptyPlane())
    ensures var w := Run(EmptyPlane(), TWO_CREATES + FIRST_FAILS + FIRST_DELETED).w;
      w.nodes == map[0 := NodeRow(100, 0)] && Total(w.ledger, 0) == 50
  {
    var s := EmptyPlane();
    ReserveTwo();
    StepsExtendRun(s, [], TWO_CREATES);
    assert [] + TWO_CREATES == TWO_CREATES;
    FailFirst();
    StepsExtendRun(s, TWO_CREATES, FIRST_FAILS);
    DeleteFirst();
    StepsExtendRun(s, TWO_CREATES + FIRST_FAILS, FIRST_DELETED);
    var l: Ledger := map[2 := Reservation(0, 50)];
    TotalWithout(l, 0, 2);
    assert l - {2} == map[];
  }
}
