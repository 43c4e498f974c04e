/** What callers may rely on in every reachable state of the control plane, and across every run. */
module Guarantees {
  import opened Stores
  import opened ProvisionJob
  import opened ControlPlane
  import opened Safety
  import opened Wrappers

  // ---- the status graph ------------------------------------------------------------------------------

  lemma StepFollowsGraph(s: State, act: Action)
    requires Inv(s)
    ensures RowsFollowGraph(s.w.tenants, Step(s, act).w.tenants)
  {
    if act.Move? && act.a in s.actors {
      CallFollowsGraph(s.w, s.actors[act.a], act.o);
    }
  }

  lemma CallFollowsGraph(w: World, x: Actor, o: Outcome)
    requires ActorOk(w, x)
    ensures RowsFollowGraph(w.tenants, ActorWorld(w, x, o).tenants)
  {
    match x
    case Creating(_, _, _, _, _) =>
    case Working(j) => JobFollowsGraph(w, j, o);
    case Deleting(_, _, _, _) => DeleteFollowsGraph(w, x, o);
    case Toggling(_, _, _, _) => ToggleFollowsGraph(w, x, o);
    case Idle =>
  }

  lemma JobFollowsGraph(w: World, j: Job, o: Outcome)
    ensures RowsFollowGraph(w.tenants, WorldNext(w, j, o).tenants)
  {
    SameRowsFollowGraph(w.tenants);
    if j.pc == SetActive { ActivationFollowsGraph(w.tenants, j.tid, j.vmid, o.Ok?); }
    if j.pc == SetError { TransitionFollowsGraph(w.tenants, j.tid, {Provisioning, Status.Deleting}, Error, o.Ok?); }
    hide CloneBox, DeleteBox, Release, Transition, RowsFollowGraph, MarkActive;
  }

  lemma SameRowsFollowGraph(rows: Rows)
    ensures RowsFollowGraph(rows, rows)
  {
  }

  lemma DeleteFollowsGraph(w: World, x: Actor, o: Outcome)
    requires x.Deleting?
    ensures RowsFollowGraph(w.tenants, DeleteWorld(w, x, o).tenants)
  {
    SameRowsFollowGraph(w.tenants);
    if x.dPc == Marking { TransitionFollowsGraph(w.tenants, x.dTid, {Active, Error, Suspended}, Status.Deleting, o.Ok?); }
    if x.dPc == Closing { TransitionFollowsGraph(w.tenants, x.dTid, {Status.Deleting}, Deleted, o.Ok?); }
    if x.dPc == Failing { TransitionFollowsGraph(w.tenants, x.dTid, {Provisioning, Status.Deleting}, Error, o.Ok?); }
    hide DeleteBox, Release, Transition, RowsFollowGraph;
  }

  lemma ToggleFollowsGraph(w: World, x: Actor, o: Outcome)
    requires x.Toggling?
    ensures RowsFollowGraph(w.tenants, ToggleWorld(w, x, o).tenants)
  {
    if x.tPc != Acting {
      if x.suspend == (x.tPc == Swapping) {
        TransitionFollowsGraph(w.tenants, x.tTid, {Active}, Suspended, o.Ok?);
      } else {
        TransitionFollowsGraph(w.tenants, x.tTid, {Suspended}, Active, o.Ok?);
      }
    }
  }

  /** Past its active life: failed, being torn down, or gone. */
  predicate Ended(s: Status) { s == Error || s == Status.Deleting || s == Deleted }

  /** Nothing revives a tenant: whatever runs after, suspend and resume rollbacks included, an ended
      tenant stays ended and keeps its container id, and a deleted one stays deleted. */
  lemma {:induction false} NeverRevived(s: State, acts: seq<Action>, t: TenantId)
    requires Reachable(s) && t in s.w.tenants && Ended(s.w.tenants[t].status)
    ensures var s' := Run(s, acts);
      && t in s'.w.tenants && Ended(s'.w.tenants[t].status)
      && s'.w.tenants[t].lxcId == s.w.tenants[t].lxcId
      && (s.w.tenants[t].status == Deleted ==> s'.w.tenants[t].status == Deleted)
  {
    if acts != [] {
      NeverRevived(s, acts[..|acts| - 1], t);
      ReachableInv(s);
      RunKeepsInv(s, acts[..|acts| - 1]);
      StepFollowsGraph(Run(s, acts[..|acts| - 1]), acts[|acts| - 1]);
    }
  }

  // ---- calls that go through take effect -----------------------------------------------------------------

  /** The tenants with one status changed. */
  function WithStatus(rows: Rows, t: TenantId, status: Status): Rows
    requires t in rows
  {
    rows[t := rows[t].(status := status)]
  }

  /** Requests start when they may: a create with a fresh id and a known project, a delete of a tenant in a state to be
      deleted, a suspend of an active tenant and a resume of a suspended one; and in no other case. */
  lemma RequestsStart(s: State, a: ActorId, t: TenantId, n: NodeId, p: ProjectId, suspend: bool)
    requires a !in s.actors
    ensures a in Step(s, BeginCreate(a, t, n, p)).actors <==> p in s.w.projects && FreshTenant(s, t)
    ensures a in Step(s, BeginDelete(a, t)).actors <==> t in s.w.tenants && s.w.tenants[t].status in {Active, Error, Suspended}
    ensures a in Step(s, BeginDelete(a, t)).actors ==> Step(s, BeginDelete(a, t)).actors[a] == Actor.Deleting(t, s.w.tenants[t], 0, Looking)
    ensures a in Step(s, BeginToggle(a, t, suspend)).actors <==> t in s.w.tenants && s.w.tenants[t].status == if suspend then Active else Suspended
    ensures a in Step(s, BeginToggle(a, t, suspend)).actors ==>
      Step(s, BeginToggle(a, t, suspend)).actors[a] == Toggling(t, suspend, s.w.tenants[t].lxcId.Some?, Swapping)
  {
  }

  /** A suspend (or resume) whose update meets the row it needs suspends (or resumes) it, and goes on to the container if
      there is one; a rollback takes it back. */
  lemma TogglesTakeEffect(s: State, a: ActorId)
    requires a in s.actors && s.actors[a].Toggling? && s.actors[a].tTid in s.w.tenants
    ensures var x, s' := s.actors[a], Step(s, Move(a, Ok));
      var needed, goal := if x.suspend then Active else Suspended, if x.suspend then Suspended else Active;
      && (x.tPc == Swapping && s.w.tenants[x.tTid].status == needed ==>
          && s'.w == s.w.(tenants := WithStatus(s.w.tenants, x.tTid, goal))
          && s'.actors == s.actors[a := if x.boxed then x.(tPc := Acting) else Idle])
      && (x.tPc == Acting ==> s'.w == s.w && s'.actors == s.actors[a := Idle] && Step(s, Move(a, Fail)).actors == s.actors[a := x.(tPc := RollingBack)])
      && (x.tPc == RollingBack && s.w.tenants[x.tTid].status == goal ==>
          s'.w == s.w.(tenants := WithStatus(s.w.tenants, x.tTid, needed)) && s'.actors == s.actors[a := Idle])
  {
  }

  /** A delete's transitions, the container's removal and the release, in a reachable state, when their calls work: deleting,
      then gone, then returned, then deleted; a teardown that cannot go on ends in error. */
  lemma TeardownsTakeEffect(s: State, a: ActorId)
    requires Reachable(s) && a in s.actors && s.actors[a].Deleting?
    ensures var x, s' := s.actors[a], Step(s, Move(a, Ok));
      var t := x.dTid;
      && t in s.w.tenants
      && (x.dPc == Marking && s.w.tenants[t].status in {Active, Error, Suspended} ==>
          s'.w == s.w.(tenants := WithStatus(s.w.tenants, t, Status.Deleting)) && Holds(s'.actors[a], t))
      && (x.dPc == Removing ==> x.snap.lxcId.Some? && s'.w == s.w.(boxes := s.w.boxes - {(x.snap.node, x.snap.lxcId.value)}))
      && (x.dPc == Freeing ==>
          x.snap.node in s.w.nodes && s'.w.ledger == s.w.ledger - {t} && s'.w.nodes[x.snap.node].used == Floored(s.w.nodes[x.snap.node].used - x.dRam))
      && (x.dPc == Closing ==> s'.w == s.w.(tenants := WithStatus(s.w.tenants, t, Deleted)) && s'.actors[a].Idle?)
      && (x.dPc == Failing ==> s'.w == s.w.(tenants := WithStatus(s.w.tenants, t, Error)) && s'.actors[a].Idle?)
  {
    ReachableInv(s);
    assert ActorOk(s.w, s.actors[a]) && RowOk(s.w, s.actors[a].dTid);
    hide Inv, RowOk;
    DeleteTakesEffect(s, a);
    hide Step, DeleteOk, ActorOk;
  }

  lemma DeleteTakesEffect(s: State, a: ActorId)
    requires a in s.actors && s.actors[a].Deleting? && DeleteOk(s.w, s.actors[a])
    ensures var x, s' := s.actors[a], Step(s, Move(a, Ok));
      var t := x.dTid;
      && (x.dPc == Marking && s.w.tenants[t].status in {Active, Error, Suspended} ==>
          s'.w == s.w.(tenants := WithStatus(s.w.tenants, t, Status.Deleting)) && Holds(s'.actors[a], t))
      && (x.dPc == Removing ==> x.snap.lxcId.Some? && s'.w == s.w.(boxes := s.w.boxes - {(x.snap.node, x.snap.lxcId.value)}))
      && (x.dPc == Freeing && x.snap.node in s.w.nodes ==>
          s'.w.ledger == s.w.ledger - {t} && s'.w.nodes[x.snap.node].used == Floored(s.w.nodes[x.snap.node].used - x.dRam))
      && (x.dPc == Closing ==> s'.w == s.w.(tenants := WithStatus(s.w.tenants, t, Deleted)) && s'.actors[a].Idle?)
      && (x.dPc == Failing ==> s'.w == s.w.(tenants := WithStatus(s.w.tenants, t, Error)) && s'.actors[a].Idle?)
  {
    hide Owed, Owns;
  }

  /** A queued goroutine with a slot free gets it. */
  lemma FreeSlotIsTaken(s: State, a: ActorId, o: Outcome)
    requires Reachable(s) && a in s.actors && s.actors[a].Working? && s.actors[a].job.pc == Queued
    ensures var s' := Step(s, Move(a, o));
      if |InsideSet(s)| < 10 then s'.actors[a] == Working(s.actors[a].job.(pc := GetProject)) && s'.sem == s.sem + 1 else s' == s
  {
    var init, acts :| Initial(init) && s == Run(init, acts);
    assert InsideSet(init) == {} && PendingSet(init) == {};
    RunKeepsSlots(init, acts);
    QueuedNext(s.w, s.actors[a].job, o);
    EveryJobIsOk(s, a);
    assert !s.actors[a].job.panicked;
    hide JobNext, WorldNext, JobOk, CreateWorld, CreateNext, DeleteWorld, DeleteNext, ToggleWorld, ToggleNext;
  }

  lemma QueuedNext(w: World, j: Job, o: Outcome)
    requires j.pc == Queued
    ensures JobNext(w, j, o) == j.(pc := GetProject) && WorldNext(w, j, o) == w
  {
    assert j.main + [] == j.main && j.undo + [] == j.undo;
  }

  // ---- one teardown at a time --------------------------------------------------------------------------

  /** While somebody is tearing a tenant down the row says so, and nobody else is. */
  lemma OneTeardown(s: State, a: ActorId, t: TenantId)
    requires Reachable(s) && a in s.actors && Holds(s.actors[a], t)
    ensures t in s.w.tenants && s.w.tenants[t].status == Status.Deleting
    ensures forall b :: b in s.actors && Holds(s.actors[b], t) ==> b == a
  {
    ReachableInv(s);
    forall b | b in s.actors && b != a ensures !Holds(s.actors[b], t) {
      assert Apart(s.actors[a], s.actors[b]);
    }
  }

  /** `t` loses a container in this step. */
  ghost predicate LosesBox(w: World, w': World, t: TenantId) {
    exists k :: k in w.boxes && w.boxes[k] == t && !(k in w'.boxes && w'.boxes[k] == t)
  }

  /** A tenant that is being deleted changes status, or loses a container, only by a call of the one
      actor that is tearing it down. */
  lemma OnlyTheHolderActs(s: State, act: Action, t: TenantId)
    requires Reachable(s) && t in s.w.tenants && s.w.tenants[t].status == Status.Deleting
    requires var w' := Step(s, act).w;
      t !in w'.tenants || w'.tenants[t].status != Status.Deleting || LosesBox(s.w, w', t)
    ensures act.Move? && act.a in s.actors && Holds(s.actors[act.a], t)
  {
    ReachableInv(s);
    assert act.Move? && act.a in s.actors;
    var x := s.actors[act.a];
    if !x.Idle? && !Holds(x, t) {
      if Subject(x) == t {
        BystandersAreHarmless(s.w, x, act.o);
      } else {
        CallTouchesOwn(s.w, x, act.o);
      }
      assert false;
    }
  }

  /** On a tenant being deleted, whoever is not its holder can at most return RAM. */
  lemma BystandersAreHarmless(w: World, x: Actor, o: Outcome)
    requires !x.Idle? && Ready(w, x) && Subject(x) in w.tenants && !Holds(x, Subject(x))
    requires w.tenants[Subject(x)].status == Status.Deleting
    ensures var w' := ActorWorld(w, x, o); w'.tenants == w.tenants && w'.boxes == w.boxes
  {
    hide RowOk, Owed, LedgerOk;
    BusyRow(w, Subject(x), {Active}, Suspended, o.Ok?);
    BusyRow(w, Subject(x), {Suspended}, Active, o.Ok?);
    BusyRow(w, Subject(x), {Active, Error, Suspended}, Status.Deleting, o.Ok?);
    hide Transition, Release;
    match x
    case Working(j) => LateWorkerIsHarmless(w, j, o);
    case _ => hide WorkOk;
  }

  /** No transition but those that end a teardown matches a row that is being deleted. */
  lemma BusyRow(w: World, t: TenantId, from: set<Status>, to: Status, up: bool)
    requires t in w.tenants && w.tenants[t].status == Status.Deleting && Status.Deleting !in from
    ensures Transition(w.tenants, t, from, to, up).0 == w.tenants
  {
  }

  lemma LateWorkerIsHarmless(w: World, j: Job, o: Outcome)
    requires WorkOk(w, j) && w.tenants[j.tid].status == Status.Deleting
    ensures WorldNext(w, j, o).tenants == w.tenants && WorldNext(w, j, o).boxes == w.boxes
  {
    assert !Live(j.pc);
    hide WorkOk;
  }

  lemma CallTouchesOwn(w: World, x: Actor, o: Outcome)
    requires !x.Idle? && Ready(w, x)
    ensures OnlyTouches(w, ActorWorld(w, x, o), Subject(x))
  {
    CallKeeps(w, x, o);
  }

  /** A delete that has not won the transition to deleting, or has just lost it, touches neither
      container nor RAM and leaves every other tenant's row alone. */
  lemma LosersTouchNothing(s: State, a: ActorId, o: Outcome)
    requires Reachable(s) && a in s.actors && s.actors[a].Deleting? && !Holds(s.actors[a], s.actors[a].dTid)
    ensures var s' := Step(s, Move(a, o));
      && s'.w == s.w.(tenants := s'.w.tenants)
      && (s'.w.tenants != s.w.tenants ==> Holds(s'.actors[a], s.actors[a].dTid))
  {
    hide WorldNext, JobNext, CreateWorld, CreateNext, ToggleWorld, ToggleNext, Release, DeleteBox, MarkDeleted, MarkError;
  }

  // ---- containers ----------------------------------------------------------------------------------------

  /** An active or suspended tenant's row names a container on its node that was cloned for it. */
  lemma LiveTenantsHaveTheirBox(s: State, t: TenantId)
    requires Reachable(s) && t in s.w.tenants
    requires s.w.tenants[t].status == Active || s.w.tenants[t].status == Suspended
    ensures var r := s.w.tenants[t]; r.lxcId.Some? && Owns(s.w, r.node, r.lxcId.value, t)
  {
    ReachableInv(s);
  }

  lemma LiveTenantsShareNoBox(s: State, t: TenantId, u: TenantId)
    requires Reachable(s) && t in s.w.tenants && u in s.w.tenants && t != u
    requires s.w.tenants[t].status == Active || s.w.tenants[t].status == Suspended
    requires s.w.tenants[u].status == Active || s.w.tenants[u].status == Suspended
    ensures s.w.tenants[t].node != s.w.tenants[u].node || s.w.tenants[t].lxcId != s.w.tenants[u].lxcId
  {
    LiveTenantsHaveTheirBox(s, t);
    LiveTenantsHaveTheirBox(s, u);
  }

  /** Nobody deletes another tenant's container. */
  lemma OnlyOwnBoxesGo(s: State, act: Action, t: TenantId)
    requires Reachable(s) && LosesBox(s.w, Step(s, act).w, t)
    ensures act.Move? && act.a in s.actors && !s.actors[act.a].Idle? && Subject(s.actors[act.a]) == t
  {
    ReachableInv(s);
    assert act.Move? && act.a in s.actors;
    if !s.actors[act.a].Idle? {
      CallTouchesOwn(s.w, s.actors[act.a], act.o);
    }
  }

  // ---- provisioning goroutines ---------------------------------------------------------------------------

  /** In every interleaving, a goroutine's log is one of a goroutine running alone, so `FinishedJob`
      and `StartComesLast` hold of it. */
  lemma EveryJobIsOk(s: State, a: ActorId)
    requires Reachable(s) && a in s.actors && s.actors[a].Working?
    ensures JobOk(s.actors[a].job)
  {
    ReachableInv(s);
  }

  /** A goroutine that has not settled owns its tenant: the row is still provisioning and its
      reservation is still out. */
  lemma UnsettledMeansProvisioning(s: State, a: ActorId)
    requires Reachable(s) && a in s.actors && s.actors[a].Working? && Live(s.actors[a].job.pc)
    ensures var t := s.actors[a].job.tid;
      t in s.w.tenants && s.w.tenants[t].status == Provisioning && Owed(s.w, t)
    ensures forall b :: b in s.actors && b != a ==> Origin(s.actors[b]) != Some(s.actors[a].job.tid)
  {
    ReachableInv(s);
    forall b | b in s.actors && b != a ensures Origin(s.actors[b]) != Some(s.actors[a].job.tid) {
      assert Apart(s.actors[a], s.actors[b]);
    }
  }

  // ---- the semaphore and the wait group --------------------------------------------------------------------

  ghost function InsideSet(s: State): set<ActorId> { set a | a in s.actors && Inside(s.actors[a]) }
  ghost function PendingSet(s: State): set<ActorId> { set a | a in s.actors && Pending(s.actors[a]) }

  ghost predicate SlotsOk(s: State) {
    && s.sem == |InsideSet(s)| <= MAX_CONCURRENT_JOBS
    && s.wg == |PendingSet(s)|
  }

  lemma Resized(a: ActorId, before: set<ActorId>, after: set<ActorId>, n: nat)
    requires n == |before| && before - {a} == after - {a}
    ensures Taken(a in before, a in after, n) == |after|
  {
    if a in before && a !in after {
      assert after - {a} == after;
    } else if a !in before && a in after {
      assert before - {a} == before;
      assert after == (after - {a}) + {a};
    } else if a in before {
      assert after == (after - {a}) + {a} && before == (before - {a}) + {a};
    } else {
      assert after - {a} == after && before - {a} == before;
    }
  }

  lemma StepKeepsSlots(s: State, act: Action)
    requires SlotsOk(s)
    ensures SlotsOk(Step(s, act))
  {
    var s' := Step(s, act);
    if act.Move? && act.a in s.actors && !Blocked(s, s.actors[act.a]) {
      Resized(act.a, InsideSet(s), InsideSet(s'), s.sem);
      Resized(act.a, PendingSet(s), PendingSet(s'), s.wg);
      assert act.a in InsideSet(s') && act.a !in InsideSet(s) ==> s.actors[act.a].job.pc == Queued;
    } else {
      assert InsideSet(s') == InsideSet(s) && PendingSet(s') == PendingSet(s);
    }
  }

  lemma {:induction false} RunKeepsSlots(s: State, acts: seq<Action>)
    requires SlotsOk(s)
    ensures SlotsOk(Run(s, acts))
  {
    if acts != [] {
      RunKeepsSlots(s, acts[..|acts| - 1]);
      StepKeepsSlots(Run(s, acts[..|acts| - 1]), acts[|acts| - 1]);
    }
  }

  /** At most ten goroutines are inside `doProvision` at once, and when the wait group is at zero,
      which is what `Shutdown` waits for, no goroutine that was ever started is still running. */
  lemma SlotsAndShutdown(s: State)
    requires Reachable(s)
    ensures |InsideSet(s)| <= 10
    ensures s.wg == 0 <==> forall a :: a in s.actors && s.actors[a].Working? ==> s.actors[a].job.pc == Finished
  {
    var init, acts :| Initial(init) && s == Run(init, acts);
    assert InsideSet(init) == {} && PendingSet(init) == {};
    RunKeepsSlots(init, acts);
    if s.wg == 0 {
      assert PendingSet(s) == {};
      forall a | a in s.actors && s.actors[a].Working? ensures s.actors[a].job.pc == Finished {
        assert a !in PendingSet(s);
      }
    } else {
      var a :| a in PendingSet(s);
    }
  }
}
