/** The concurrent control plane: any number of creates, provisioning goroutines, deletes, suspends
    and resumes over the shared world, interleaved call by call.

    A run is a sequence of actions. `Step` is total: an action that is not possible in a state leaves
    it unchanged, so a statement about every sequence of actions covers every interleaving and, through
    the outcome each `Move` carries, every fault schedule. */
module ControlPlane {
  import opened Stores
  import opened ProvisionJob
  import opened Wrappers

  const MAX_CONCURRENT_JOBS := 10

  type ActorId = nat

  datatype CreatePc = Reserving | Inserting | Returning | Spawning
  datatype DeletePc = Looking | Marking | Connecting | Removing | Freeing | Closing | Failing
  datatype TogglePc = Swapping | Acting | RollingBack

  datatype Actor =
    | Creating(cTid: TenantId, cNid: NodeId, cPid: ProjectId, cRam: nat, cPc: CreatePc)
    | Working(job: Job)
    | Deleting(dTid: TenantId, snap: TenantRow, dRam: nat, dPc: DeletePc)
    | Toggling(tTid: TenantId, suspend: bool, boxed: bool, tPc: TogglePc)
    | Idle

  /** `sem` counts the slots taken in the semaphore channel, `wg` the wait group. */
  datatype State = State(w: World, actors: map<ActorId, Actor>, sem: nat, wg: nat)

  datatype Action =
    | AddNode(n: NodeId, total: int)
    | SetTotal(n: NodeId, total: int)
    | BeginCreate(a: ActorId, t: TenantId, n: NodeId, p: ProjectId)
    | BeginDelete(a: ActorId, t: TenantId)
    | BeginToggle(a: ActorId, t: TenantId, suspend: bool)
    | Move(a: ActorId, o: Outcome)

  /** Empty tables: a node's allocation starts at its column default of 0. */
  ghost predicate Initial(s: State) {
    s.w.tenants == map[] && s.w.nodes == map[] && s.w.boxes == map[] && s.w.ledger == map[]
    && s.actors == map[] && s.sem == 0 && s.wg == 0
  }

  /** The tenant a create or a goroutine is bringing up. */
  function Origin(x: Actor): Option<TenantId> {
    match x
    case Creating(t, _, _, _, _) => Some(t)
    case Working(j) => Some(j.tid)
    case _ => None
  }

  /** A generated tenant id is one nothing has used before. */
  predicate FreshTenant(s: State, t: TenantId) {
    t !in s.w.tenants && t !in s.w.ledger && forall a :: a in s.actors ==> Origin(s.actors[a]) != Some(t)
  }

  /** Inside `doProvision`, holding a semaphore slot. The slot is given back before the deferred
      recover of a panic runs. */
  predicate Inside(x: Actor) {
    x.Working? && x.job.pc != Queued && x.job.pc != Finished && !x.job.panicked
  }

  /** Counted in the wait group: from `Provision` until the goroutine is gone. */
  predicate Pending(x: Actor) {
    x.Working? && x.job.pc != Finished
  }

  // ---- LifecycleService.Create -----------------------------------------------------------------

  function CreateWorld(w: World, x: Actor, o: Outcome): World
    requires x.Creating?
  {
    match x.cPc
    case Reserving =>
      var (nodes', ledger', _) := Reserve(w.nodes, w.ledger, x.cNid, x.cRam, x.cTid, o.Ok?);
      w.(nodes := nodes', ledger := ledger')
    case Inserting =>
      if o.Ok? then w.(tenants := w.tenants[x.cTid := TenantRow(x.cNid, x.cPid, Provisioning, None)]) else w
    case Returning => w.Freed(x.cNid, x.cRam, x.cTid, o.Ok?)
    case Spawning => w
  }

  function CreateNext(w: World, x: Actor, o: Outcome): Actor
    requires x.Creating?
  {
    match x.cPc
    case Reserving => if Reserve(w.nodes, w.ledger, x.cNid, x.cRam, x.cTid, o.Ok?).2 == Done then x.(cPc := Inserting) else Idle
    case Inserting => x.(cPc := if o.Ok? then Spawning else Returning)
    case Returning => Idle
    case Spawning => Working(NewJob(x.cTid, x.cNid, x.cPid, x.cRam))
  }

  // ---- LifecycleService.Delete and Provisioner.Deprovision ----------------------------------------

  function DeleteWorld(w: World, x: Actor, o: Outcome): World
    requires x.Deleting?
  {
    match x.dPc
    case Marking => w.(tenants := MarkDeleting(w.tenants, x.dTid, o.Ok?).0)
    case Removing =>
      if x.snap.lxcId.Some? then w.(boxes := DeleteBox(w.boxes, x.snap.node, x.snap.lxcId.value, o).0) else w
    case Freeing => w.Freed(x.snap.node, x.dRam, x.dTid, o.Ok?)
    case Closing => w.(tenants := MarkDeleted(w.tenants, x.dTid, o.Ok?).0)
    case Failing => w.(tenants := MarkError(w.tenants, x.dTid, o.Ok?).0)
    case _ => w
  }

  function DeleteNext(w: World, x: Actor, o: Outcome): Actor
    requires x.Deleting?
  {
    match x.dPc
    case Looking =>
      // A missing project is not fatal: the tenant goes, its RAM stays.
      if o.Ok? && x.snap.project in w.projects then x.(dRam := w.projects[x.snap.project].ram, dPc := Marking)
      else if o.Missing? then x.(dRam := 0, dPc := Marking)
      else Idle
    case Marking =>
      if MarkDeleting(w.tenants, x.dTid, o.Ok?).1 != Done then Idle
      else if x.snap.lxcId.Some? then x.(dPc := Connecting)
      else x.(dPc := if x.dRam > 0 then Freeing else Closing)
    case Connecting => x.(dPc := if o.Ok? then Removing else Failing)
    case Removing =>
      if x.snap.lxcId.Some? && !DeleteBox(w.boxes, x.snap.node, x.snap.lxcId.value, o).1 then x.(dPc := Failing)
      else x.(dPc := if x.dRam > 0 then Freeing else Closing)
    case Freeing => x.(dPc := Closing)
    case Closing => Idle
    case Failing => Idle
  }

  predicate Deletable(s: Status) { s == Active || s == Error || s == Suspended }

  // ---- Handler.Suspend and Handler.Resume ---------------------------------------------------------

  function ToggleWorld(w: World, x: Actor, o: Outcome): World
    requires x.Toggling?
  {
    match x.tPc
    case Swapping => w.(tenants := if x.suspend then MarkSuspended(w.tenants, x.tTid, o.Ok?).0 else MarkResumed(w.tenants, x.tTid, o.Ok?).0)
    case Acting => w
    case RollingBack => w.(tenants := if x.suspend then MarkResumed(w.tenants, x.tTid, o.Ok?).0 else MarkSuspended(w.tenants, x.tTid, o.Ok?).0)
  }

  function ToggleNext(w: World, x: Actor, o: Outcome): Actor
    requires x.Toggling?
  {
    match x.tPc
    case Swapping =>
      var reply := if x.suspend then MarkSuspended(w.tenants, x.tTid, o.Ok?).1 else MarkResumed(w.tenants, x.tTid, o.Ok?).1;
      if reply == Done && x.boxed then x.(tPc := Acting) else Idle
    case Acting => if o.Ok? then Idle else x.(tPc := RollingBack)
    case RollingBack => Idle
  }

  // ---- the interleaved system ---------------------------------------------------------------------

  function ActorWorld(w: World, x: Actor, o: Outcome): World {
    match x
    case Creating(_, _, _, _, _) => CreateWorld(w, x, o)
    case Working(j) => WorldNext(w, j, o)
    case Deleting(_, _, _, _) => DeleteWorld(w, x, o)
    case Toggling(_, _, _, _) => ToggleWorld(w, x, o)
    case Idle => w
  }

  function ActorNext(w: World, x: Actor, o: Outcome): Actor {
    match x
    case Creating(_, _, _, _, _) => CreateNext(w, x, o)
    case Working(j) => Working(JobNext(w, j, o))
    case Deleting(_, _, _, _) => DeleteNext(w, x, o)
    case Toggling(_, _, _, _) => ToggleNext(w, x, o)
    case Idle => Idle
  }

  /** A queued goroutine waits while all slots are taken. */
  predicate Blocked(s: State, x: Actor) {
    x.Working? && x.job.pc == Queued && s.sem >= MAX_CONCURRENT_JOBS
  }

  function Taken(p: bool, p': bool, n: nat): nat {
    if p == p' then n else if p' then n + 1 else if n > 0 then n - 1 else 0
  }

  function Moved(s: State, a: ActorId, o: Outcome): State
    requires a in s.actors
  {
    var x := s.actors[a];
    var x' := ActorNext(s.w, x, o);
    State(ActorWorld(s.w, x, o), s.actors[a := x'],
          Taken(Inside(x), Inside(x'), s.sem), Taken(Pending(x), Pending(x'), s.wg))
  }

  function Step(s: State, act: Action): State {
    match act
    case AddNode(n, total) =>
      if n in s.w.nodes || total <= 0 then s else s.(w := s.w.(nodes := s.w.nodes[n := NodeRow(total, 0)]))
    case SetTotal(n, total) => s.(w := s.w.(nodes := Resize(s.w.nodes, n, total, true).0))
    case BeginCreate(a, t, n, p) =>
      if a in s.actors || p !in s.w.projects || !FreshTenant(s, t) then s
      else s.(actors := s.actors[a := Creating(t, n, p, s.w.projects[p].ram, Reserving)])
    case BeginDelete(a, t) =>
      if a in s.actors || t !in s.w.tenants || !Deletable(s.w.tenants[t].status) then s
      else s.(actors := s.actors[a := Actor.Deleting(t, s.w.tenants[t], 0, Looking)])
    case BeginToggle(a, t, suspend) =>
      if a in s.actors || t !in s.w.tenants || s.w.tenants[t].status != (if suspend then Active else Suspended) then s
      else s.(actors := s.actors[a := Toggling(t, suspend, s.w.tenants[t].lxcId.Some?, Swapping)])
    case Move(a, o) =>
      if a !in s.actors || Blocked(s, s.actors[a]) then s else Moved(s, a, o)
  }

  function Run(s: State, acts: seq<Action>): State {
    if acts == [] then s else Step(Run(s, acts[..|acts| - 1]), acts[|acts| - 1])
  }

  ghost predicate Reachable(s: State) {
    exists init, acts :: Initial(init) && s == Run(init, acts)
  }
}
