/** What every interleaving keeps: the inductive invariant of the control plane and the safety
    theorems that follow from it. */
module Safety {
  import opened Stores
  import opened ProvisionJob
  import opened ControlPlane
  import opened Wrappers

  // ---- the invariant -------------------------------------------------------------------------------

  predicate Owns(w: World, n: NodeId, v: int, t: TenantId) {
    (n, v) in w.boxes && w.boxes[(n, v)] == t
  }

  /** The tenant's reservation has not been released, and is for its own node and project. */
  predicate Owed(w: World, t: TenantId) {
    t in w.ledger && t in w.tenants && w.tenants[t].project in w.projects
    && w.ledger[t] == Reservation(w.tenants[t].node, w.projects[w.tenants[t].project].ram)
  }

  /** A goroutine that has neither activated its tenant nor marked it failed. */
  predicate Live(pc: Pc) { pc != ReleaseRam && pc != Tail && pc != Finished }

  /** The clone has completed and nothing has been undone. */
  predicate Boxed(pc: Pc) {
    pc == AllocIp || pc == SetNetwork || pc == HostDirs || pc == PctMounts || pc == ApiMounts
    || pc == Start || pc == SetActive || pc == Cleanup
  }

  /** Between a successful `SetDeleting` and the `SetDeleted` or `SetError` that ends the teardown. */
  predicate Holds(x: Actor, t: TenantId) {
    x.Deleting? && x.dTid == t && x.dPc != Looking && x.dPc != Marking
  }

  ghost predicate CreateOk(w: World, x: Actor)
    requires x.Creating?
  {
    && x.cPid in w.projects && x.cRam == w.projects[x.cPid].ram
    && match x.cPc
       case Reserving => x.cTid !in w.tenants && x.cTid !in w.ledger
       case Spawning => Owed(w, x.cTid) && w.tenants[x.cTid] == TenantRow(x.cNid, x.cPid, Provisioning, None)
       case _ => x.cTid !in w.tenants && x.cTid in w.ledger && w.ledger[x.cTid] == Reservation(x.cNid, x.cRam)
  }

  ghost predicate WorkOk(w: World, j: Job) {
    && JobOk(j)
    && j.tid in w.tenants
    && var r := w.tenants[j.tid];
    && r.node == j.nid && r.project == j.pid && j.pid in w.projects && j.ram == w.projects[j.pid].ram
    && (Live(j.pc) ==> r.status == Provisioning && r.lxcId == None && Owed(w, j.tid))
    && (Boxed(j.pc) ==> Owns(w, j.nid, j.vmid, j.tid))
    && (j.pc == ReleaseRam ==> j.ram > 0 && r.lxcId == None && (r.status == Provisioning || r.status == Error ==> Owed(w, j.tid)))
  }

  ghost predicate DeleteOk(w: World, x: Actor)
    requires x.Deleting?
  {
    && x.dTid in w.tenants
    && var r := w.tenants[x.dTid];
    && r.node == x.snap.node && r.project == x.snap.project && r.lxcId == x.snap.lxcId
    && r.status != Provisioning
    && (x.dRam == 0 || (r.project in w.projects && x.dRam == w.projects[r.project].ram))
    && (Holds(x, x.dTid) ==> r.status == Status.Deleting)
    && (x.dPc == Connecting || x.dPc == Removing || x.dPc == Failing ==>
          r.lxcId.Some? && Owns(w, r.node, r.lxcId.value, x.dTid) && Owed(w, x.dTid))
    && (x.dPc == Freeing ==> x.dRam > 0 && (r.lxcId.Some? ==> Owed(w, x.dTid)))
  }

  ghost predicate ActorOk(w: World, x: Actor) {
    match x
    case Creating(_, _, _, _, _) => CreateOk(w, x)
    case Working(j) => WorkOk(w, j)
    case Deleting(_, _, _, _) => DeleteOk(w, x)
    case Toggling(t, _, _, _) => t in w.tenants
    case Idle => true
  }

  ghost predicate RowOk(w: World, t: TenantId)
    requires t in w.tenants
  {
    var r := w.tenants[t];
    && r.node in w.nodes && r.project in w.projects
    && (t in w.ledger ==> Owed(w, t))
    && (r.status == Provisioning ==> r.lxcId == None)
    && (r.status == Active || r.status == Suspended ==> r.lxcId.Some?)
    && (r.lxcId.Some? && Deletable(r.status) ==> Owns(w, r.node, r.lxcId.value, t) && Owed(w, t))
  }

  ghost predicate LedgerOk(w: World) {
    forall t :: t in w.ledger ==> w.ledger[t].node in w.nodes
  }

  /** Two actors are never bringing up, nor tearing down, the same tenant. */
  predicate Apart(x: Actor, y: Actor) {
    && (Origin(x).None? || Origin(x) != Origin(y))
    && !(x.Deleting? && y.Deleting? && Holds(x, x.dTid) && Holds(y, x.dTid))
  }

  ghost predicate Inv(s: State) {
    && (forall a :: a in s.actors ==> ActorOk(s.w, s.actors[a]))
    && (forall t :: t in s.w.tenants ==> RowOk(s.w, t))
    && LedgerOk(s.w)
    && (forall a, b :: a in s.actors && b in s.actors && a != b ==> Apart(s.actors[a], s.actors[b]))
  }

  // ---- one call keeps the invariant ----------------------------------------------------------------

  function Subject(x: Actor): TenantId {
    match x
    case Creating(t, _, _, _, _) => t
    case Working(j) => j.tid
    case Deleting(t, _, _, _) => t
    case Toggling(t, _, _, _) => t
    case Idle => 0
  }

  /** Nothing that belongs to another tenant than `t` changes. */
  ghost predicate OnlyTouches(w: World, w': World, t: TenantId) {
    && w'.projects == w.projects && w'.ssh == w.ssh
    && (forall n :: n in w.nodes ==> n in w'.nodes)
    && (forall u :: u != t ==> (u in w.tenants <==> u in w'.tenants) && (u in w.ledger <==> u in w'.ledger))
    && (forall u :: u != t && u in w.tenants ==> w'.tenants[u] == w.tenants[u])
    && (forall u :: u != t && u in w.ledger ==> w'.ledger[u] == w.ledger[u])
    && (forall k :: k in w.boxes && w.boxes[k] != t ==> k in w'.boxes && w'.boxes[k] == w.boxes[k])
    && (forall k :: k in w'.boxes && w'.boxes[k] != t ==> k in w.boxes)
  }

  // Each kind of update stays within the tenant it is made for.

  lemma NothingTouched(w: World, t: TenantId)
    ensures OnlyTouches(w, w, t)
  {
  }

  lemma TransitionTouches(w: World, t: TenantId, from: set<Status>, to: Status, up: bool)
    ensures OnlyTouches(w, w.(tenants := Transition(w.tenants, t, from, to, up).0), t)
  {
  }

  lemma FreedTouches(w: World, n: NodeId, ram: nat, t: TenantId, up: bool)
    ensures OnlyTouches(w, w.Freed(n, ram, t, up), t)
  {
  }

  lemma DeleteBoxTouches(w: World, n: NodeId, v: int, t: TenantId, o: Outcome)
    requires Owns(w, n, v, t)
    ensures OnlyTouches(w, w.(boxes := DeleteBox(w.boxes, n, v, o).0), t)
  {
  }

  lemma CloneTouches(w: World, n: NodeId, v: int, t: TenantId, o: Outcome)
    ensures OnlyTouches(w, w.(boxes := CloneBox(w.boxes, n, v, t, o).0), t)
  {
  }

  lemma ActivationTouches(w: World, t: TenantId, v: int, up: bool)
    ensures OnlyTouches(w, w.(tenants := MarkActive(w.tenants, t, v, up).0), t)
  {
  }

  /** What a call by `x` must establish: it stays within its tenant, and the actor, its row and the
      ledger are as the invariant says. */
  ghost predicate Keeps(w: World, x: Actor, o: Outcome) {
    var w', t := ActorWorld(w, x, o), Subject(x);
    && OnlyTouches(w, w', t)
    && ActorOk(w', ActorNext(w, x, o))
    && (t in w'.tenants ==> RowOk(w', t))
    && LedgerOk(w')
  }

  ghost predicate Ready(w: World, x: Actor) {
    ActorOk(w, x) && LedgerOk(w) && (Subject(x) in w.tenants ==> RowOk(w, Subject(x)))
  }

  lemma CreateKeeps(w: World, x: Actor, o: Outcome)
    requires x.Creating? && Ready(w, x)
    ensures Keeps(w, x, o)
  {
    hide Ready, Keeps;
    match x.cPc
    case Reserving => ReservingKeeps(w, x, o);
    case Inserting => InsertingKeeps(w, x, o);
    case Returning => ReturningKeeps(w, x, o);
    case Spawning => SpawningKeeps(w, x, o);
  }

  lemma ReservingKeeps(w: World, x: Actor, o: Outcome)
    requires x.Creating? && Ready(w, x) && x.cPc == Reserving
    ensures Keeps(w, x, o)
  {
    hide WorkOk, DeleteOk, RowOk;
  }

  lemma InsertingKeeps(w: World, x: Actor, o: Outcome)
    requires x.Creating? && Ready(w, x) && x.cPc == Inserting
    ensures Keeps(w, x, o)
  {
    hide WorkOk, DeleteOk;
  }

  lemma ReturningKeeps(w: World, x: Actor, o: Outcome)
    requires x.Creating? && Ready(w, x) && x.cPc == Returning
    ensures Keeps(w, x, o)
  {
    hide WorkOk, DeleteOk, RowOk;
    FreedTouches(w, x.cNid, x.cRam, x.cTid, o.Ok?);
  }

  lemma SpawningKeeps(w: World, x: Actor, o: Outcome)
    requires x.Creating? && Ready(w, x) && x.cPc == Spawning
    ensures Keeps(w, x, o)
  {
    hide DeleteOk, RowOk;
  }

  lemma ToggleKeeps(w: World, x: Actor, o: Outcome)
    requires x.Toggling? && Ready(w, x)
    ensures Keeps(w, x, o)
  {
    ToggleGoesOn(w, x, o);
    NothingTouched(w, x.tTid);
    SwapKeepsRow(w, x.tTid, {Active}, Suspended, o.Ok?);
    SwapKeepsRow(w, x.tTid, {Suspended}, Active, o.Ok?);
    hide CreateOk, WorkOk, DeleteOk, RowOk, OnlyTouches, Transition, ToggleNext, ToggleWorld;
  }

  lemma ToggleGoesOn(w: World, x: Actor, o: Outcome)
    requires x.Toggling?
    ensures var x' := ToggleNext(w, x, o); x'.Idle? || (x'.Toggling? && x'.tTid == x.tTid)
    ensures var w' := ToggleWorld(w, x, o);
      || w' == w
      || w' == w.(tenants := Transition(w.tenants, x.tTid, {Active}, Suspended, o.Ok?).0)
      || w' == w.(tenants := Transition(w.tenants, x.tTid, {Suspended}, Active, o.Ok?).0)
  {
    hide Transition;
  }

  lemma SwapKeepsRow(w: World, t: TenantId, from: set<Status>, to: Status, up: bool)
    requires t in w.tenants && RowOk(w, t)
    requires (from == {Active} && to == Suspended) || (from == {Suspended} && to == Active)
    ensures var w' := w.(tenants := Transition(w.tenants, t, from, to, up).0);
      OnlyTouches(w, w', t) && t in w'.tenants && RowOk(w', t)
  {
    TransitionTouches(w, t, from, to, up);
  }

  lemma DeleteKeeps(w: World, x: Actor, o: Outcome)
    requires x.Deleting? && Ready(w, x)
    ensures Keeps(w, x, o)
  {
    hide CreateOk, WorkOk;
    match x.dPc
    case Marking => MarkingKeeps(w, x, o);
    case Removing => RemovingKeeps(w, x, o);
    case Freeing => FreeingKeeps(w, x, o);
    case Closing => ClosingKeeps(w, x, o);
    case Failing => ClosingKeeps(w, x, o);
    case _ =>
  }

  lemma MarkingKeeps(w: World, x: Actor, o: Outcome)
    requires x.Deleting? && Ready(w, x) && x.dPc == Marking
    ensures Keeps(w, x, o)
  {
    hide CreateOk, WorkOk;
    TransitionTouches(w, x.dTid, {Active, Error, Suspended}, Status.Deleting, o.Ok?);
  }

  lemma RemovingKeeps(w: World, x: Actor, o: Outcome)
    requires x.Deleting? && Ready(w, x) && x.dPc == Removing
    ensures Keeps(w, x, o)
  {
    hide CreateOk, WorkOk;
    DeleteBoxTouches(w, x.snap.node, x.snap.lxcId.value, x.dTid, o);
  }

  lemma FreeingKeeps(w: World, x: Actor, o: Outcome)
    requires x.Deleting? && Ready(w, x) && x.dPc == Freeing
    ensures Keeps(w, x, o)
  {
    hide CreateOk, WorkOk;
    FreedTouches(w, x.snap.node, x.dRam, x.dTid, o.Ok?);
  }

  lemma ClosingKeeps(w: World, x: Actor, o: Outcome)
    requires x.Deleting? && Ready(w, x) && (x.dPc == Closing || x.dPc == Failing)
    ensures Keeps(w, x, o)
  {
    hide CreateOk, WorkOk;
    TransitionTouches(w, x.dTid, {Status.Deleting}, Deleted, o.Ok?);
    TransitionTouches(w, x.dTid, {Provisioning, Status.Deleting}, Error, o.Ok?);
  }

  lemma WorkKeeps(w: World, x: Actor, o: Outcome)
    requires x.Working? && Ready(w, x)
    ensures Keeps(w, x, o)
  {
    hide JobOk, CreateOk, DeleteOk;
    match x.job.pc
    case Clone => CloneKeeps(w, x, o);
    case SetActive => ActivateKeeps(w, x, o);
    case Cleanup => CleanupKeeps(w, x, o);
    case SetError => ErrorKeeps(w, x, o);
    case ReleaseRam => ReleaseKeeps(w, x, o);
    case _ => QuietKeeps(w, x, o);
  }

  lemma QuietKeeps(w: World, x: Actor, o: Outcome)
    requires x.Working? && Ready(w, x) && WorldNext(w, x.job, o) == w
    requires x.job.pc != Clone && x.job.pc != SetActive && x.job.pc != Cleanup && x.job.pc != SetError && x.job.pc != ReleaseRam
    ensures Keeps(w, x, o)
  {
    hide JobOk, CreateOk, DeleteOk, OnlyTouches, JobNext, WorldNext, Live, Boxed;
    JobNextOk(w, x.job, o);
    QuietNext(w, x.job, o);
    NothingTouched(w, x.job.tid);
  }

  lemma QuietNext(w: World, j: Job, o: Outcome)
    requires j.pc != Clone && j.pc != SetActive && j.pc != Cleanup && j.pc != SetError && j.pc != ReleaseRam
    ensures var j' := JobNext(w, j, o);
      && j'.tid == j.tid && j'.nid == j.nid && j'.pid == j.pid && j'.ram == j.ram
      && (Live(j'.pc) ==> Live(j.pc))
      && (Boxed(j'.pc) ==> Boxed(j.pc) && j'.vmid == j.vmid)
      && j'.pc != ReleaseRam
  {
    hide Succeeds, MainEffect, UndoEffect;
  }

  lemma CloneKeeps(w: World, x: Actor, o: Outcome)
    requires x.Working? && Ready(w, x) && x.job.pc == Clone
    ensures Keeps(w, x, o)
  {
    hide JobOk, CreateOk, DeleteOk;
    JobNextOk(w, x.job, o);
    CloneTouches(w, x.job.nid, x.job.vmid, x.job.tid, o);
  }

  lemma ActivateKeeps(w: World, x: Actor, o: Outcome)
    requires x.Working? && Ready(w, x) && x.job.pc == SetActive
    ensures Keeps(w, x, o)
  {
    hide JobOk, CreateOk, DeleteOk;
    JobNextOk(w, x.job, o);
    ActivationTouches(w, x.job.tid, x.job.vmid, o.Ok?);
  }

  lemma CleanupKeeps(w: World, x: Actor, o: Outcome)
    requires x.Working? && Ready(w, x) && x.job.pc == Cleanup
    ensures Keeps(w, x, o)
  {
    hide JobOk, CreateOk, DeleteOk;
    JobNextOk(w, x.job, o);
    DeleteBoxTouches(w, x.job.nid, x.job.vmid, x.job.tid, o);
  }

  lemma ErrorKeeps(w: World, x: Actor, o: Outcome)
    requires x.Working? && Ready(w, x) && x.job.pc == SetError
    ensures Keeps(w, x, o)
  {
    hide JobOk, CreateOk, DeleteOk, RowOk, Owed, OnlyTouches, JobNext, WorldNext, MarkError;
    JobNextOk(w, x.job, o);
    AfterMark(w, x.job, o);
    MarkedRowOk(w, x.job.tid, o.Ok?);
  }

  lemma AfterMark(w: World, j: Job, o: Outcome)
    requires j.pc == SetError
    ensures WorldNext(w, j, o) == w.(tenants := MarkError(w.tenants, j.tid, o.Ok?).0)
    ensures JobNext(w, j, o) == j.(undo := j.undo + [ErrorIssued], pc := if j.ram > 0 then ReleaseRam else Finished)
  {
  }

  /** Marking a provisioning tenant failed keeps its row, its reservation and everybody else's. */
  lemma MarkedRowOk(w: World, t: TenantId, up: bool)
    requires t in w.tenants && RowOk(w, t) && Owed(w, t)
    requires w.tenants[t].status == Provisioning && w.tenants[t].lxcId == None
    ensures var w' := w.(tenants := MarkError(w.tenants, t, up).0);
      && t in w'.tenants && RowOk(w', t) && Owed(w', t) && OnlyTouches(w, w', t)
      && w'.tenants[t].lxcId == None && w'.tenants[t].node == w.tenants[t].node && w'.tenants[t].project == w.tenants[t].project
  {
    TransitionTouches(w, t, {Provisioning, Status.Deleting}, Error, up);
  }

  lemma ReleaseKeeps(w: World, x: Actor, o: Outcome)
    requires x.Working? && Ready(w, x) && x.job.pc == ReleaseRam
    ensures Keeps(w, x, o)
  {
    hide JobOk, CreateOk, DeleteOk, OnlyTouches, JobNext, WorldNext;
    JobNextOk(w, x.job, o);
    AfterRelease(w, x.job, o);
    FreedTouches(w, x.job.nid, x.job.ram, x.job.tid, o.Ok?);
  }

  lemma AfterRelease(w: World, j: Job, o: Outcome)
    requires j.pc == ReleaseRam
    ensures WorldNext(w, j, o) == w.Freed(j.nid, j.ram, j.tid, o.Ok?)
    ensures JobNext(w, j, o) == j.(undo := j.undo + [ReleaseIssued], pc := Finished)
  {
  }

  lemma OthersStayOk(w: World, w': World, t: TenantId, y: Actor)
    requires OnlyTouches(w, w', t) && ActorOk(w, y) && (y.Idle? || Subject(y) != t)
    ensures ActorOk(w', y)
  {
    hide JobOk;
  }

  lemma RowsStayOk(w: World, w': World, t: TenantId, u: TenantId)
    requires OnlyTouches(w, w', t) && u != t && u in w.tenants && RowOk(w, u)
    ensures RowOk(w', u)
  {
  }

  // ---- the other actors of the same tenant ---------------------------------------------------------

  /** `x` makes a call; `y` is another actor on the same tenant. */
  ghost predicate Peers(w: World, x: Actor, y: Actor) {
    Ready(w, x) && ActorOk(w, y) && Apart(x, y) && !x.Idle? && !y.Idle? && Subject(x) == Subject(y)
  }

  lemma CreatePeer(w: World, x: Actor, o: Outcome, y: Actor)
    requires x.Creating? && Peers(w, x, y)
    ensures ActorOk(ActorWorld(w, x, o), y) && Apart(ActorNext(w, x, o), y)
  {
    hide JobOk;
  }

  lemma TogglePeer(w: World, x: Actor, o: Outcome, y: Actor)
    requires x.Toggling? && Peers(w, x, y)
    ensures ActorOk(ActorWorld(w, x, o), y) && Apart(ActorNext(w, x, o), y)
  {
    hide JobOk;
  }

  lemma DeletePeer(w: World, x: Actor, o: Outcome, y: Actor)
    requires x.Deleting? && Peers(w, x, y)
    ensures ActorOk(ActorWorld(w, x, o), y) && Apart(ActorNext(w, x, o), y)
  {
    if y.Deleting? { RivalPeer(w, x, o, y); } else if y.Working? { WorkerPeer(w, x, o, y); }
  }

  lemma RivalPeer(w: World, x: Actor, o: Outcome, y: Actor)
    requires x.Deleting? && y.Deleting? && Peers(w, x, y)
    ensures ActorOk(ActorWorld(w, x, o), y) && Apart(ActorNext(w, x, o), y)
  {
    hide CreateOk, WorkOk;
  }

  lemma WorkerPeer(w: World, x: Actor, o: Outcome, y: Actor)
    requires x.Deleting? && y.Working? && Peers(w, x, y)
    ensures ActorOk(ActorWorld(w, x, o), y) && Apart(ActorNext(w, x, o), y)
  {
    hide JobOk, CreateOk, RowOk;
    assert !Boxed(y.job.pc) && !Live(y.job.pc);
    hide Boxed, Live;
    TeardownLeaves(w, x, o);
    hide DeleteOk, DeleteWorld, DeleteNext, Owed;
    TeardownGoesOn(w, x, o);
  }

  /** The tenant's row but for its status, and its reservation should it end in an error. */
  ghost predicate Leaves(w: World, w': World, t: TenantId)
    requires t in w.tenants
  {
    && w'.projects == w.projects && t in w'.tenants
    && w'.tenants[t].node == w.tenants[t].node && w'.tenants[t].project == w.tenants[t].project && w'.tenants[t].lxcId == w.tenants[t].lxcId
    && w'.tenants[t].status != Provisioning
    && (w'.tenants[t].status == Error ==> Owed(w', t) || (w.tenants[t].status == Error && (Owed(w, t) ==> Owed(w', t))))
  }

  lemma TeardownLeaves(w: World, x: Actor, o: Outcome)
    requires x.Deleting? && DeleteOk(w, x)
    ensures Leaves(w, DeleteWorld(w, x, o), x.dTid)
  {
    if x.dPc == Marking || x.dPc == Closing || x.dPc == Failing {
      MarkLeaves(w, x, o);
    } else if x.dPc == Freeing {
      FreeingLeaves(w, x, o);
    } else {
      StillOwed(w, DeleteWorld(w, x, o), x.dTid);
      hide Owed, DeleteBox;
    }
    hide Transition, Release;
  }

  lemma MarkLeaves(w: World, x: Actor, o: Outcome)
    requires x.Deleting? && DeleteOk(w, x) && (x.dPc == Marking || x.dPc == Closing || x.dPc == Failing)
    ensures Leaves(w, DeleteWorld(w, x, o), x.dTid)
  {
    TransitionLeaves(w, x.dTid, {Active, Error, Suspended}, Status.Deleting, o.Ok?);
    TransitionLeaves(w, x.dTid, {Status.Deleting}, Deleted, o.Ok?);
    TransitionLeaves(w, x.dTid, {Provisioning, Status.Deleting}, Error, o.Ok?);
    hide Transition, Owed, Release, DeleteBox, Owns;
  }

  lemma FreeingLeaves(w: World, x: Actor, o: Outcome)
    requires x.Deleting? && DeleteOk(w, x) && x.dPc == Freeing
    ensures Leaves(w, DeleteWorld(w, x, o), x.dTid)
  {
    hide Owed, Release;
  }

  lemma StillOwed(w: World, w': World, t: TenantId)
    requires w'.tenants == w.tenants && w'.ledger == w.ledger && w'.projects == w.projects
    ensures Owed(w', t) <==> Owed(w, t)
  {
  }

  lemma TransitionLeaves(w: World, t: TenantId, from: set<Status>, to: Status, up: bool)
    requires t in w.tenants
    ensures var w' := w.(tenants := Transition(w.tenants, t, from, to, up).0);
      && t in w'.tenants
      && (w'.tenants[t] == w.tenants[t] || w'.tenants[t] == w.tenants[t].(status := to))
      && (Owed(w, t) <==> Owed(w', t))
  {
  }

  lemma TeardownGoesOn(w: World, x: Actor, o: Outcome)
    requires x.Deleting?
    ensures DeleteNext(w, x, o).Idle? || DeleteNext(w, x, o).Deleting?
  {
  }

  lemma WorkPeer(w: World, x: Actor, o: Outcome, y: Actor)
    requires x.Working? && Peers(w, x, y)
    ensures ActorOk(ActorWorld(w, x, o), y) && Apart(ActorNext(w, x, o), y)
  {
    WorkGoesOn(w, x.job, o);
    hide JobOk, JobNext, RowOk;
  }

  lemma WorkGoesOn(w: World, j: Job, o: Outcome)
    ensures JobNext(w, j, o).tid == j.tid
  {
  }

  // ---- every action keeps the invariant --------------------------------------------------------------

  lemma IdleMoves(s: State, a: ActorId, o: Outcome)
    requires a in s.actors && s.actors[a].Idle?
    ensures Moved(s, a, o).w == s.w && Moved(s, a, o).actors == s.actors
  {
  }

  lemma MoveKeepsInv(s: State, a: ActorId, o: Outcome)
    requires Inv(s) && a in s.actors
    ensures Inv(Moved(s, a, o))
  {
    hide ActorWorld, ActorNext, ActorOk, RowOk, Apart;
    var x, s' := s.actors[a], Moved(s, a, o);
    var x', t := ActorNext(s.w, x, o), Subject(x);
    if x.Idle? {
      IdleMoves(s, a, o);
    } else {
      CallKeeps(s.w, x, o);
      forall b | b in s.actors && b != a ensures ActorOk(s'.w, s.actors[b]) && Apart(x', s.actors[b]) && Apart(s.actors[b], x') {
        OtherKeeps(s.w, x, o, s.actors[b]);
      }
      forall u | u in s'.w.tenants ensures RowOk(s'.w, u) {
        if u != t { RowsStayOk(s.w, s'.w, t, u); }
      }
    }
  }

  lemma CallKeeps(w: World, x: Actor, o: Outcome)
    requires !x.Idle? && Ready(w, x)
    ensures Keeps(w, x, o)
  {
    hide Ready, Keeps;
    match x
    case Creating(_, _, _, _, _) => CreateKeeps(w, x, o);
    case Working(_) => WorkKeeps(w, x, o);
    case Deleting(_, _, _, _) => DeleteKeeps(w, x, o);
    case Toggling(_, _, _, _) => ToggleKeeps(w, x, o);
  }

  lemma OtherKeeps(w: World, x: Actor, o: Outcome, y: Actor)
    requires !x.Idle? && Ready(w, x) && ActorOk(w, y) && Apart(x, y)
    ensures ActorOk(ActorWorld(w, x, o), y) && Apart(ActorNext(w, x, o), y) && Apart(y, ActorNext(w, x, o))
  {
    hide CreateOk, WorkOk, DeleteOk, RowOk, LedgerOk, OnlyTouches, ActorWorld, ActorNext;
    if y.Idle? {
    } else if Subject(y) == Subject(x) {
      match x
      case Creating(_, _, _, _, _) => CreatePeer(w, x, o, y);
      case Working(_) => WorkPeer(w, x, o, y);
      case Deleting(_, _, _, _) => DeletePeer(w, x, o, y);
      case Toggling(_, _, _, _) => TogglePeer(w, x, o, y);
    } else {
      CallKeeps(w, x, o);
      OthersStayOk(w, ActorWorld(w, x, o), Subject(x), y);
      SubjectStays(w, x, o);
    }
  }

  lemma SubjectStays(w: World, x: Actor, o: Outcome)
    ensures ActorNext(w, x, o).Idle? || Subject(ActorNext(w, x, o)) == Subject(x)
  {
  }

  lemma StepKeepsInv(s: State, act: Action)
    requires Inv(s)
    ensures Inv(Step(s, act))
  {
    hide Inv, Moved;
    var s' := Step(s, act);
    match act
    case Move(a, o) =>
      if s' != s { MoveKeepsInv(s, a, o); }
    case AddNode(n, total) => NodesKeepInv(s, s');
    case SetTotal(n, total) => NodesKeepInv(s, s');
    case _ => BeginKeepsInv(s, act);
  }

  lemma BeginKeepsInv(s: State, act: Action)
    requires Inv(s) && (act.BeginCreate? || act.BeginDelete? || act.BeginToggle?)
    ensures Inv(Step(s, act))
  {
    var s' := Step(s, act);
    if s' != s {
      var x := s'.actors[act.a];
      assert ActorOk(s.w, x) by {
        if !act.BeginCreate? { assert RowOk(s.w, act.t); }
      }
      hide ActorOk, RowOk;
      forall b | b in s.actors ensures Apart(x, s.actors[b]) && Apart(s.actors[b], x) {
        assert act.BeginCreate? ==> Origin(s.actors[b]) != Some(act.t);
      }
    }
  }

  /** The invariant is not about the figures in the node table. */
  lemma NodesKeepInv(s: State, s': State)
    requires Inv(s) && s' == s.(w := s.w.(nodes := s'.w.nodes))
    requires forall n :: n in s.w.nodes ==> n in s'.w.nodes
    ensures Inv(s')
  {
    forall a | a in s.actors ensures ActorOk(s'.w, s.actors[a]) {
      if !s.actors[a].Idle? { OthersStayOk(s.w, s'.w, Subject(s.actors[a]) + 1, s.actors[a]); }
    }
    forall t | t in s.w.tenants ensures RowOk(s'.w, t) { RowsStayOk(s.w, s'.w, t + 1, t); }
  }

  lemma {:induction false} RunKeepsInv(s: State, acts: seq<Action>)
    requires Inv(s)
    ensures Inv(Run(s, acts))
  {
    if acts != [] {
      RunKeepsInv(s, acts[..|acts| - 1]);
      StepKeepsInv(Run(s, acts[..|acts| - 1]), acts[|acts| - 1]);
    }
  }

  lemma ReachableInv(s: State)
    requires Reachable(s)
    ensures Inv(s)
  {
    var init, acts :| Initial(init) && s == Run(init, acts);
    RunKeepsInv(init, acts);
  }
}
