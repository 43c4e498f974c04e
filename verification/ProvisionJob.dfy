/** One provisioning goroutine: `doProvision`, `cleanupAndError` and `setError`.

    `JobNext` and `WorldNext` are one external call of the goroutine against the shared world, with
    the outcome of the call as a parameter; the interleaved system of module ControlPlane is built from it.
    `Provisioner.DoProvision` is the same routine as straight-line code over the stores, proved to
    do exactly what the steps do when nothing else runs. A job carries what it has done in two
    lists: `main`, the forward effects, and `undo`, the recovery effects. */
module ProvisionJob {
  import opened Stores
  import opened Wrappers

  /** The call the goroutine makes next. Best-effort calls that touch none of the modelled state
      (address and token bookkeeping, deploy, station, route, health) have no step of their own. */
  datatype Pc =
    | Queued
    | GetProject | GetNode | GetClient | NextId | Clone
    | AllocIp | SetNetwork | HostDirs | PctMounts | ApiMounts | Start | SetActive
    | Cleanup | SetError | ReleaseRam
    | Tail | Finished

  datatype Effect =
    | Cloned(v: int) | NetworkSet(v: int) | MountsSet(v: int) | StartIssued(v: int) | Activated(v: int)
    | DeleteIssued(v: int) | ErrorIssued | ReleaseIssued

  datatype Job = Job(
    tid: TenantId, nid: NodeId, pid: ProjectId, ram: nat,
    pc: Pc, cidr: bool, vmid: int, panicked: bool,
    main: seq<Effect>, undo: seq<Effect>)
  {
    function At(next: Pc): Job { this.(pc := next) }
    function Log(): seq<Effect> { main + undo }
  }

  function NewJob(t: TenantId, n: NodeId, p: ProjectId, ram: nat): Job {
    Job(t, n, p, ram, Queued, false, 0, false, [], [])
  }

  /** Calls at which a panic is taken into account: everything before `setError`. */
  predicate CanPanic(pc: Pc) {
    match pc
    case Queued => false
    case SetError => false
    case ReleaseRam => false
    case Tail => false
    case Finished => false
    case _ => true
  }

  /** Whether the call at `j.pc` returns without error. */
  function Succeeds(w: World, j: Job, o: Outcome): bool {
    match j.pc
    case GetProject => o.Ok? && j.pid in w.projects
    case GetNode => o.Ok? && j.nid in w.nodes
    case NextId => o.OkId?
    case Clone => CloneBox(w.boxes, j.nid, j.vmid, j.tid, o).1
    case SetActive => MarkActive(w.tenants, j.tid, j.vmid, o.Ok?).1 == Done
    case _ => o.Ok?
  }

  function MountsWith(ssh: bool): Pc { if ssh then HostDirs else ApiMounts }

  /** Errors before the clone go to `setError`, errors after it to `cleanupAndError`. */
  function NextPc(pc: Pc, ok: bool, cidr: bool, ssh: bool, ram: nat): Pc {
    match pc
    case Queued => GetProject
    case GetProject => if ok then GetNode else SetError
    case GetNode => if ok then GetClient else SetError
    case GetClient => if ok then NextId else SetError
    case NextId => if ok then Clone else SetError
    case Clone => if !ok then SetError else if cidr then AllocIp else MountsWith(ssh)
    case AllocIp => if ok then SetNetwork else Cleanup
    case SetNetwork => if ok then MountsWith(ssh) else Cleanup
    case HostDirs => if ok then PctMounts else Cleanup
    case PctMounts => if ok then Start else Cleanup
    case ApiMounts => if ok then Start else Cleanup
    case Start => if ok then SetActive else Cleanup
    case SetActive => if ok then Tail else Cleanup
    case Cleanup => SetError
    case SetError => if ram > 0 then ReleaseRam else Finished
    case ReleaseRam => Finished
    case Tail => Finished
    case Finished => Finished
  }

  function MainEffect(pc: Pc, ok: bool, v: int): seq<Effect> {
    match pc
    case Clone => if ok then [Cloned(v)] else []
    case SetNetwork => if ok then [NetworkSet(v)] else []
    case PctMounts => if ok then [MountsSet(v)] else []
    case ApiMounts => if ok then [MountsSet(v)] else []
    case Start => [StartIssued(v)]
    case SetActive => if ok then [Activated(v)] else []
    case _ => []
  }

  function UndoEffect(pc: Pc, v: int): seq<Effect> {
    match pc
    case Cleanup => [DeleteIssued(v)]
    case SetError => [ErrorIssued]
    case ReleaseRam => [ReleaseIssued]
    case _ => []
  }

  /** The goroutine's own state once the call at `j.pc` has returned: `cidr` and `id` are what a
      project lookup and an id allocation deliver. */
  function Land(j: Job, ok: bool, ssh: bool, cidr: bool, id: int): Job {
    j.(pc := NextPc(j.pc, ok, j.cidr, ssh, j.ram),
       cidr := if j.pc == GetProject then cidr else j.cidr,
       vmid := if j.pc == NextId then id else j.vmid,
       main := j.main + MainEffect(j.pc, ok, j.vmid),
       undo := j.undo + UndoEffect(j.pc, j.vmid))
  }

  /** A panic goes to the deferred recover, which marks the error without cleaning up. */
  function JobNext(w: World, j: Job, o: Outcome): Job {
    if o.Panic? && CanPanic(j.pc) then j.(pc := SetError, panicked := true)
    else Land(j, Succeeds(w, j, o), w.ssh, j.pid in w.projects && w.projects[j.pid].cidr, if o.OkId? then o.id else 0)
  }

  /** The shared world after the call at `j.pc`. */
  function WorldNext(w: World, j: Job, o: Outcome): World {
    if o.Panic? && CanPanic(j.pc) then w
    else match j.pc
      case Clone => w.(boxes := CloneBox(w.boxes, j.nid, j.vmid, j.tid, o).0)
      case SetActive => w.(tenants := MarkActive(w.tenants, j.tid, j.vmid, o.Ok?).0)
      case Cleanup => w.(boxes := DeleteBox(w.boxes, j.nid, j.vmid, o).0)
      case SetError => w.(tenants := MarkError(w.tenants, j.tid, o.Ok?).0)
      case ReleaseRam => w.Freed(j.nid, j.ram, j.tid, o.Ok?)
      case _ => w
  }

  // ---- what a job's two lists can hold at each point ----------------------------------------

  /** The forward effects of a run in which nothing fails. */
  function Forward(j: Job): seq<Effect> {
    [Cloned(j.vmid)] + (if j.cidr then [NetworkSet(j.vmid)] else [])
    + [MountsSet(j.vmid), StartIssued(j.vmid), Activated(j.vmid)]
  }

  /** How many forward effects precede each call. */
  function Progress(j: Job): nat {
    var net := if j.cidr then 1 else 0;
    match j.pc
    case AllocIp => 1
    case SetNetwork => 1
    case HostDirs => 1 + net
    case PctMounts => 1 + net
    case ApiMounts => 1 + net
    case Start => 2 + net
    case SetActive => 3 + net
    case Tail => 4 + net
    case _ => 0
  }

  /** The container delete that must come before `setError`: required once the clone completed,
      unless a panic skipped it. */
  function Deletes(j: Job): seq<Effect> {
    if j.main == [] || j.panicked then [] else [DeleteIssued(j.vmid)]
  }

  ghost predicate Partial(j: Job) {
    j.main <= Forward(j) && |j.main| < |Forward(j)|
  }

  ghost predicate JobOk(j: Job) {
    match j.pc
    case Cleanup => Partial(j) && j.main != [] && j.undo == [] && !j.panicked
    case SetError => Partial(j) && j.undo == Deletes(j)
    case ReleaseRam => Partial(j) && j.undo == Deletes(j) + [ErrorIssued]
    case Finished =>
      || (j.main == Forward(j) && j.undo == [] && !j.panicked)
      || (Partial(j) && (j.undo == Deletes(j) + [ErrorIssued] || j.undo == Deletes(j) + [ErrorIssued, ReleaseIssued]))
    case _ =>
      && !j.panicked && j.undo == []
      && (j.pc == AllocIp || j.pc == SetNetwork ==> j.cidr)
      && j.main == Forward(j)[..Progress(j)]
  }

  lemma JobNextOk(w: World, j: Job, o: Outcome)
    requires JobOk(j)
    ensures JobOk(JobNext(w, j, o))
  {
    if !(o.Panic? && CanPanic(j.pc)) {
      LandOk(j, Succeeds(w, j, o), w.ssh, j.pid in w.projects && w.projects[j.pid].cidr, if o.OkId? then o.id else 0);
    }
  }

  lemma LandOk(j: Job, ok: bool, ssh: bool, cidr: bool, id: int)
    requires JobOk(j)
    ensures JobOk(Land(j, ok, ssh, cidr, id))
  {
    if CanPanic(j.pc) && j.pc != Cleanup {
      LandForward(j, ok, ssh, cidr, id);
      hide JobOk;
    } else if j.pc == Tail {
      assert Forward(j)[..Progress(j)] == Forward(j);
    }
  }

  lemma LandForward(j: Job, ok: bool, ssh: bool, cidr: bool, id: int)
    requires JobOk(j) && CanPanic(j.pc) && j.pc != Cleanup
    ensures JobOk(Land(j, ok, ssh, cidr, id))
  {
    Advance(j, ok, ssh);
    var j' := Land(j, ok, ssh, cidr, id);
    assert j'.main != [] ==> Forward(j') == Forward(j);
    assert j'.undo == [];
  }

  /** The forward list grows along `Forward`, one entry for each call that has an effect. */
  lemma Advance(j: Job, ok: bool, ssh: bool)
    requires CanPanic(j.pc) && j.pc != Cleanup && JobOk(j)
    ensures var main', pc' := j.main + MainEffect(j.pc, ok, j.vmid), NextPc(j.pc, ok, j.cidr, ssh, j.ram);
      && main' <= Forward(j)
      && ((CanPanic(pc') && pc' != Cleanup) || pc' == Tail ==> main' == Forward(j)[..Progress(j.At(pc'))])
      && (pc' == Cleanup || pc' == SetError ==> |main'| < |Forward(j)| && (main' == [] <==> pc' == SetError))
  {
    var f, k := Forward(j), Progress(j);
    if k < |f| {
      assert f[..k] + [f[k]] == f[..k + 1];
    }
  }

  /** What the call at `j.pc` appends to the job's log. */
  function Appended(w: World, j: Job, o: Outcome): seq<Effect> {
    if o.Panic? && CanPanic(j.pc) then []
    else MainEffect(j.pc, Succeeds(w, j, o), j.vmid) + UndoEffect(j.pc, j.vmid)
  }

  // Every change a call makes to the shared world is one it logs: rows change only with an activation
  // or an error mark, containers only at a clone or with a delete, RAM only with a release.

  lemma RowsAreLogged(w: World, j: Job, o: Outcome)
    ensures WorldNext(w, j, o).tenants != w.tenants ==>
      Appended(w, j, o) == [Activated(j.vmid)] || Appended(w, j, o) == [ErrorIssued]
  {
    hide CloneBox, DeleteBox, Release;
    if j.pc == SetActive {
      hide MarkError;
      assert MarkActive(w.tenants, j.tid, j.vmid, o.Ok?).1 != Done ==> WorldNext(w, j, o).tenants == w.tenants;
    } else if j.pc != SetError {
      hide Appended;
      assert WorldNext(w, j, o).tenants == w.tenants;
    }
  }

  lemma BoxesAreLogged(w: World, j: Job, o: Outcome)
    ensures WorldNext(w, j, o).boxes != w.boxes ==> j.pc == Clone || Appended(w, j, o) == [DeleteIssued(j.vmid)]
  {
    hide CloneBox, DeleteBox, Release, MarkActive, MarkError;
    if j.pc != Cleanup {
      hide Appended;
      assert WorldNext(w, j, o).boxes != w.boxes ==> j.pc == Clone;
    }
  }

  lemma RamIsLogged(w: World, j: Job, o: Outcome)
    ensures WorldNext(w, j, o).nodes != w.nodes || WorldNext(w, j, o).ledger != w.ledger ==>
      Appended(w, j, o) == [ReleaseIssued]
  {
    hide CloneBox, DeleteBox, Release, MarkActive, MarkError;
    if j.pc != ReleaseRam {
      hide Appended;
      assert WorldNext(w, j, o).nodes == w.nodes && WorldNext(w, j, o).ledger == w.ledger;
    }
  }

  /** An activation puts the container's id into the tenant's row. */
  lemma ActivationRecords(w: World, j: Job, o: Outcome)
    requires Appended(w, j, o) == [Activated(j.vmid)]
    ensures var rows := WorldNext(w, j, o).tenants;
      j.tid in rows && rows[j.tid].status == Active && rows[j.tid].lxcId == Some(j.vmid)
  {
    assert Appended(w, j, o)[0] == Activated(j.vmid);
  }

  lemma LogGrows(w: World, j: Job, o: Outcome)
    ensures multiset(JobNext(w, j, o).Log()) == multiset(j.Log()) + multiset(Appended(w, j, o))
  {
    var a, b := MainEffect(j.pc, Succeeds(w, j, o), j.vmid), UndoEffect(j.pc, j.vmid);
    assert multiset(a + b) == multiset(a) + multiset(b);
  }

  /** A start is never issued before the mounts and, when the project has a network, the network
      have been configured on that container. */
  lemma StartComesLast(j: Job, k: nat)
    requires JobOk(j) && k < |j.Log()| && j.Log()[k].StartIssued?
    ensures j.Log()[k] == StartIssued(j.vmid)
    ensures Cloned(j.vmid) in j.Log()[..k] && MountsSet(j.vmid) in j.Log()[..k]
    ensures j.cidr ==> NetworkSet(j.vmid) in j.Log()[..k]
  {
    var f := Forward(j);
    var log := j.Log();
    assert k < |j.main| && log[k] == f[k];
    assert log[0] == f[0] && log[k - 1] == f[k - 1];
    assert log[0] in log[..k] && log[k - 1] in log[..k];
    if j.cidr {
      assert log[1] == f[1] && log[1] in log[..k];
    }
  }

  // ---- what a job says about the world it runs in ------------------------------------------------------------

  /** From its first lookup on a job knows whether its project has a network; a panic in that lookup leaves it not
      knowing, with nothing done. */
  predicate KnowsNetwork(w: World, j: Job) {
    || j.pc == Queued || j.pc == GetProject
    || (j.main == [] && j.panicked)
    || j.cidr == (j.pid in w.projects && w.projects[j.pid].cidr)
  }

  lemma NextKnowsNetwork(w: World, j: Job, o: Outcome)
    requires JobOk(j) && KnowsNetwork(w, j)
    ensures KnowsNetwork(w, JobNext(w, j, o))
  {
    if o.Panic? && CanPanic(j.pc) {
      if j.pc == GetProject { assert j.main == []; }
    } else {
      KeepsNetwork(w, j, o);
    }
  }

  lemma KeepsNetwork(w: World, j: Job, o: Outcome)
    requires JobOk(j) && KnowsNetwork(w, j) && !(o.Panic? && CanPanic(j.pc))
    ensures KnowsNetwork(w, JobNext(w, j, o))
  {
    if j.panicked { assert j.pc == SetError || j.pc == ReleaseRam || j.pc == Finished; }
    hide JobOk, Succeeds, UndoEffect;
  }

  /** The job's last forward effect is the activation. */
  predicate HasActivated(j: Job) { j.main != [] && j.main[|j.main| - 1].Activated? }

  lemma ActivatedIsLast(j: Job)
    requires JobOk(j)
    ensures HasActivated(j) <==> Activated(j.vmid) in j.Log()
  {
    var f := Forward(j);
    assert forall i :: 0 <= i < |j.main| ==> j.main[i] == f[i] && (f[i].Activated? ==> i == |f| - 1);
    assert forall e :: e in j.Log() ==> e in j.main || e in j.undo;
  }

  function Count(log: seq<Effect>, e: Effect): nat { multiset(log)[e] }

  /** How every provisioning attempt ends, whatever failed and whatever else ran meanwhile. Either
      the tenant was activated, with no container delete, no error mark and no release; or it was not,
      with exactly one error mark and at most one release, and, unless a panic intervened, a delete of
      the cloned container attempted before the error mark. */
  lemma FinishedJob(j: Job)
    requires JobOk(j) && j.pc == Finished
    ensures Activated(j.vmid) in j.Log() ==>
      forall e :: e in j.Log() ==> !e.DeleteIssued? && !e.ErrorIssued? && !e.ReleaseIssued?
    ensures Activated(j.vmid) !in j.Log() ==>
      Count(j.Log(), ErrorIssued) == 1 && Count(j.Log(), ReleaseIssued) <= 1
    ensures Activated(j.vmid) !in j.Log() && Cloned(j.vmid) in j.Log() && !j.panicked ==>
      exists i, k :: 0 <= i < k < |j.Log()| && j.Log()[i] == DeleteIssued(j.vmid) && j.Log()[k] == ErrorIssued
  {
    if j.main == Forward(j) && j.undo == [] {
      WholeJob(j);
    } else {
      FailedJob(j);
      if j.main != [] && !j.panicked { CleanedJob(j); }
    }
  }

  lemma WholeJob(j: Job)
    requires j.main == Forward(j) && j.undo == []
    ensures Activated(j.vmid) in j.Log()
    ensures forall e :: e in j.Log() ==> !e.DeleteIssued? && !e.ErrorIssued? && !e.ReleaseIssued?
  {
    assert j.Log() == Forward(j);
    assert Forward(j)[|Forward(j)| - 1] == Activated(j.vmid);
  }

  lemma ForwardOnly(j: Job)
    requires Partial(j)
    ensures Activated(j.vmid) !in j.main && ErrorIssued !in j.main && ReleaseIssued !in j.main
  {
    var f := Forward(j);
    assert forall i :: 0 <= i < |j.main| ==> j.main[i] == f[i] && !f[i].Activated? && f[i] != ErrorIssued && f[i] != ReleaseIssued;
  }

  lemma FailedJob(j: Job)
    requires Partial(j)
    requires j.undo == Deletes(j) + [ErrorIssued] || j.undo == Deletes(j) + [ErrorIssued, ReleaseIssued]
    ensures Activated(j.vmid) !in j.Log()
    ensures Count(j.Log(), ErrorIssued) == 1 && Count(j.Log(), ReleaseIssued) <= 1
  {
    ForwardOnly(j);
    hide Forward;
    assert multiset(j.Log()) == multiset(j.main) + multiset(j.undo);
    assert ErrorIssued !in multiset(j.main) && ReleaseIssued !in multiset(j.main);
  }

  lemma CleanedJob(j: Job)
    requires j.main != [] && !j.panicked
    requires j.undo == Deletes(j) + [ErrorIssued] || j.undo == Deletes(j) + [ErrorIssued, ReleaseIssued]
    ensures exists i, k :: 0 <= i < k < |j.Log()| && j.Log()[i] == DeleteIssued(j.vmid) && j.Log()[k] == ErrorIssued
  {
    var m := |j.main|;
    assert j.Log()[m] == DeleteIssued(j.vmid) && j.Log()[m + 1] == ErrorIssued;
  }

  // ---- a job running alone -------------------------------------------------------------------

  function Rank(pc: Pc): nat {
    match pc
    case Queued => 17 case GetProject => 16 case GetNode => 15 case GetClient => 14 case NextId => 13
    case Clone => 12 case AllocIp => 11 case SetNetwork => 10 case HostDirs => 9 case PctMounts => 8
    case ApiMounts => 8 case Start => 7 case SetActive => 6 case Cleanup => 5 case SetError => 4
    case ReleaseRam => 3 case Tail => 1 case Finished => 0
  }

  /** `faults` fixes how each call comes out; no call is made twice. */
  ghost function RunJob(w: World, j: Job, faults: Pc -> Outcome): (World, Job)
    decreases Rank(j.pc)
  {
    if j.pc == Finished then (w, j)
    else RunJob(WorldNext(w, j, faults(j.pc)), JobNext(w, j, faults(j.pc)), faults)
  }

  lemma NextRank(w: World, j: Job, o: Outcome)
    requires j.pc != Finished
    ensures Rank(JobNext(w, j, o).pc) < Rank(j.pc)
  {
    hide Succeeds, MainEffect, UndoEffect;
    NextPcRank(j.pc, Succeeds(w, j, o), j.cidr, w.ssh, j.ram);
  }

  lemma NextPcRank(pc: Pc, ok: bool, cidr: bool, ssh: bool, ram: nat)
    requires pc != Finished
    ensures Rank(NextPc(pc, ok, cidr, ssh, ram)) < Rank(pc)
    ensures CanPanic(pc) ==> Rank(SetError) < Rank(pc)
  {
  }

  lemma {:induction false} RunJobOk(w: World, j: Job, faults: Pc -> Outcome)
    requires JobOk(j)
    ensures var (w', j') := RunJob(w, j, faults); JobOk(j') && j'.pc == Finished
    decreases Rank(j.pc)
  {
    hide JobOk, JobNext, WorldNext, Rank;
    if j.pc != Finished {
      JobNextOk(w, j, faults(j.pc));
      NextRank(w, j, faults(j.pc));
      RunJobOk(WorldNext(w, j, faults(j.pc)), JobNext(w, j, faults(j.pc)), faults);
    }
  }

  // The same routine as one expression: what `setError`, `cleanupAndError` and `doProvision` leave
  // behind when they run alone.

  function AfterSetError(w: World, t: TenantId, n: NodeId, ram: nat, faults: Pc -> Outcome): World {
    var w' := w.(tenants := MarkError(w.tenants, t, faults(SetError).Ok?).0);
    if ram > 0 then w'.Freed(n, ram, t, faults(ReleaseRam).Ok?) else w'
  }

  function AfterCleanup(w: World, t: TenantId, n: NodeId, ram: nat, v: int, faults: Pc -> Outcome): World {
    AfterSetError(w.(boxes := DeleteBox(w.boxes, n, v, faults(Cleanup)).0), t, n, ram, faults)
  }

  /** The calls between a successful clone and an active tenant. */
  function CallsAfterClone(cidr: bool, ssh: bool): seq<Pc> {
    (if cidr then [AllocIp, SetNetwork] else []) + (if ssh then [HostDirs, PctMounts] else [ApiMounts]) + [Start, SetActive]
  }

  datatype Ending = AllOk | Failed | Panicked

  /** How a series of calls ends: at the first that does not succeed, or not at all. */
  function EndingOf(calls: seq<Pc>, faults: Pc -> Outcome): Ending {
    if calls == [] then AllOk
    else if faults(calls[0]).Panic? then Panicked
    else if !faults(calls[0]).Ok? then Failed
    else EndingOf(calls[1..], faults)
  }

  /** Everything up to the clone succeeds. */
  predicate LooksUp(w: World, n: NodeId, p: ProjectId, faults: Pc -> Outcome) {
    faults(GetProject).Ok? && p in w.projects && faults(GetNode).Ok? && n in w.nodes && faults(GetClient).Ok? && faults(NextId).OkId?
  }

  /** The world once the calls after the clone have ended. A panic skips the cleanup. */
  function Ended(w: World, t: TenantId, n: NodeId, ram: nat, v: int, ending: Ending, faults: Pc -> Outcome): World {
    match ending
    case Panicked => AfterSetError(w, t, n, ram, faults)
    case Failed => AfterCleanup(w, t, n, ram, v, faults)
    case AllOk =>
      var (rows', reply) := MarkActive(w.tenants, t, v, true);
      if reply == Done then w.(tenants := rows') else AfterCleanup(w, t, n, ram, v, faults)
  }

  /** `Provision` with the semaphore taken, from the lookups to the deferred recover. */
  function AfterProvision(w: World, t: TenantId, n: NodeId, p: ProjectId, ram: nat, faults: Pc -> Outcome): World {
    if !LooksUp(w, n, p, faults) then AfterSetError(w, t, n, ram, faults)
    else
      var v := faults(NextId).id;
      var (boxes', cloned) := CloneBox(w.boxes, n, v, t, faults(Clone));
      var w' := w.(boxes := boxes');
      if cloned then Ended(w', t, n, ram, v, EndingOf(CallsAfterClone(w.projects[p].cidr, w.ssh), faults), faults)
      else AfterSetError(w', t, n, ram, faults)
  }

  /** A tenant that was never brought up: marked failed, its reservation returned, nothing else changed. */
  function Unwound(w: World, t: TenantId, n: NodeId, ram: nat): World
    requires t in w.tenants
  {
    var w' := w.(tenants := w.tenants[t := w.tenants[t].(status := Error)]);
    if ram > 0 then w'.Freed(n, ram, t, true) else w'
  }

  function BroughtUp(w: World, t: TenantId, n: NodeId, v: int): World
    requires t in w.tenants
  {
    w.(tenants := w.tenants[t := w.tenants[t].(status := Active, lxcId := Some(v))], boxes := w.boxes[(n, v) := t])
  }

  /** The clone creates a container. */
  predicate CreatesBox(w: World, n: NodeId, p: ProjectId, faults: Pc -> Outcome) {
    LooksUp(w, n, p, faults) && (n, faults(NextId).id) !in w.boxes && (faults(Clone).Ok? || faults(Clone).Lost?)
  }

  /** The container is created and then left behind: its clone is reported as failed, a panic comes before the
      delete, or a later call fails and the delete does too. */
  predicate LeavesBox(w: World, n: NodeId, p: ProjectId, faults: Pc -> Outcome) {
    CreatesBox(w, n, p, faults) && (faults(Clone).Lost? ||
      match EndingOf(CallsAfterClone(w.projects[p].cidr, w.ssh), faults)
      case AllOk => false
      case Failed => !faults(Cleanup).Ok?
      case Panicked => true)
  }

  /** The container is created and every later call succeeds. */
  predicate ComesUp(w: World, n: NodeId, p: ProjectId, faults: Pc -> Outcome) {
    CreatesBox(w, n, p, faults) && faults(Clone).Ok? && EndingOf(CallsAfterClone(w.projects[p].cidr, w.ssh), faults) == AllOk
  }

  /** The goroutine of an attempt, once it holds its semaphore slot. */
  function Attempt(t: TenantId, n: NodeId, p: ProjectId, ram: nat): Job { NewJob(t, n, p, ram).At(GetProject) }

  /** How an attempt ends, whatever fails or panics: the tenant is up; or it is not, and then the container is
      there exactly if it was created and left behind. */
  lemma AttemptEnds(w: World, t: TenantId, n: NodeId, p: ProjectId, ram: nat, faults: Pc -> Outcome)
    requires t in w.tenants && w.tenants[t].status == Provisioning
    ensures RunJob(w, Attempt(t, n, p, ram), faults).0 ==
      if ComesUp(w, n, p, faults) then BroughtUp(w, t, n, faults(NextId).id)
      else if LeavesBox(w, n, p, faults) then AfterSetError(w, t, n, ram, faults).(boxes := w.boxes[(n, faults(NextId).id) := t])
      else AfterSetError(w, t, n, ram, faults)
  {
    SoloRun(w, t, n, p, ram, faults);
    hide RunJob, EndingOf, CallsAfterClone, Release, MarkError;
    if CreatesBox(w, n, p, faults) {
      var v := faults(NextId).id;
      var box := w.boxes[(n, v) := t];
      assert box - {(n, v)} == w.boxes;
      ErrorIgnoresBoxes(w, t, n, ram, box, faults);
      hide AfterSetError;
    }
  }

  lemma ErrorIgnoresBoxes(w: World, t: TenantId, n: NodeId, ram: nat, boxes: Boxes, faults: Pc -> Outcome)
    ensures AfterSetError(w.(boxes := boxes), t, n, ram, faults) == AfterSetError(w, t, n, ram, faults).(boxes := boxes)
  {
    hide MarkError, Release;
  }

  /** An attempt is all or nothing exactly when it leaves no container behind: with the error mark and the release going
      through, the world is then as before but for these two, or the tenant is up. */
  lemma ProvisionIsAllOrNothing(w: World, t: TenantId, n: NodeId, p: ProjectId, ram: nat, faults: Pc -> Outcome)
    requires t in w.tenants && w.tenants[t].status == Provisioning && faults(SetError).Ok? && faults(ReleaseRam).Ok?
    ensures var w' := RunJob(w, Attempt(t, n, p, ram), faults).0;
      w' == Unwound(w, t, n, ram) || (faults(NextId).OkId? && w' == BroughtUp(w, t, n, faults(NextId).id))
      <==> !LeavesBox(w, n, p, faults)
  {
    AttemptEnds(w, t, n, p, ram, faults);
    ErrorUnwinds(w, t, n, ram, faults);
    if LeavesBox(w, n, p, faults) {
      var w', v := RunJob(w, Attempt(t, n, p, ram), faults).0, faults(NextId).id;
      assert (n, v) in w'.boxes && Unwound(w, t, n, ram).boxes == w.boxes;
      assert w'.tenants[t].status == Error;
    }
    hide RunJob, LeavesBox, AfterSetError;
  }

  lemma ErrorUnwinds(w: World, t: TenantId, n: NodeId, ram: nat, faults: Pc -> Outcome)
    requires t in w.tenants && w.tenants[t].status == Provisioning && faults(SetError).Ok? && faults(ReleaseRam).Ok?
    ensures AfterSetError(w, t, n, ram, faults) == Unwound(w, t, n, ram)
  {
    hide Release;
  }

  /** A clone whose task reports failure after creating the container leaves it behind, on a tenant that is marked
      failed and does not know it. */
  lemma LostCloneLeavesBox(w: World, t: TenantId, n: NodeId, p: ProjectId, ram: nat, faults: Pc -> Outcome)
    requires t in w.tenants && w.tenants[t].status == Provisioning && faults(SetError).Ok?
    requires LooksUp(w, n, p, faults) && faults(Clone).Lost? && (n, faults(NextId).id) !in w.boxes
    ensures var w', v := RunJob(w, Attempt(t, n, p, ram), faults).0, faults(NextId).id;
      && w'.tenants == w.tenants[t := w.tenants[t].(status := Error)]
      && w'.boxes == w.boxes[(n, v) := t]
  {
    AttemptEnds(w, t, n, p, ram, faults);
    hide RunJob, EndingOf, CallsAfterClone, Release;
  }

  lemma SoloSetError(w: World, j: Job, faults: Pc -> Outcome)
    requires j.pc == SetError
    ensures RunJob(w, j, faults).0 == AfterSetError(w, j.tid, j.nid, j.ram, faults)
  {
    var w', j' := WorldNext(w, j, faults(j.pc)), JobNext(w, j, faults(j.pc));
    assert RunJob(w, j, faults) == RunJob(w', j', faults);
    if j.ram > 0 {
      var w'', j'' := WorldNext(w', j', faults(j'.pc)), JobNext(w', j', faults(j'.pc));
      assert RunJob(w', j', faults) == RunJob(w'', j'', faults) == (w'', j'');
    }
  }

  lemma SoloCleanup(w: World, j: Job, faults: Pc -> Outcome)
    requires j.pc == Cleanup
    ensures RunJob(w, j, faults).0 == AfterCleanup(w, j.tid, j.nid, j.ram, j.vmid, faults)
  {
    SoloSetError(WorldNext(w, j, faults(j.pc)), JobNext(w, j, faults(j.pc)), faults);
  }

  lemma SoloActivate(w: World, j: Job, faults: Pc -> Outcome)
    requires j.pc == SetActive
    ensures RunJob(w, j, faults).0 == Ended(w, j.tid, j.nid, j.ram, j.vmid, EndingOf([SetActive], faults), faults)
  {
    var w', j' := WorldNext(w, j, faults(j.pc)), JobNext(w, j, faults(j.pc));
    assert RunJob(w, j, faults) == RunJob(w', j', faults);
    ActivateNext(w, j, faults(SetActive));
    EndingOfOne(SetActive, faults);
    hide WorldNext, JobNext, MarkActive, EndingOf, AfterSetError, AfterCleanup;
    if j'.pc == Tail {
      SoloTail(w', j', faults);
    } else if j'.pc == SetError {
      SoloSetError(w', j', faults);
    } else {
      SoloCleanup(w', j', faults);
    }
  }

  lemma ActivateNext(w: World, j: Job, o: Outcome)
    requires j.pc == SetActive
    ensures var w', j', done := WorldNext(w, j, o), JobNext(w, j, o), MarkActive(w.tenants, j.tid, j.vmid, true);
      && j'.tid == j.tid && j'.nid == j.nid && j'.ram == j.ram && j'.vmid == j.vmid
      && (if o.Ok? && done.1 == Done then j'.pc == Tail && w' == w.(tenants := done.0)
          else j'.pc == (if o.Panic? then SetError else Cleanup) && w' == w)
  {
  }

  lemma SoloTail(w: World, j: Job, faults: Pc -> Outcome)
    requires j.pc == Tail
    ensures RunJob(w, j, faults).0 == w
  {
    assert RunJob(w, j, faults) == RunJob(w, JobNext(w, j, faults(Tail)), faults);
  }

  /** A call that touches nothing shared: it succeeds, fails, or panics. */
  lemma SoloQuiet(w: World, j: Job, faults: Pc -> Outcome)
    requires j.pc in {GetProject, GetNode, GetClient, NextId, AllocIp, SetNetwork, HostDirs, PctMounts, ApiMounts, Start}
    ensures RunJob(w, j, faults) == RunJob(w, JobNext(w, j, faults(j.pc)), faults)
    ensures JobNext(w, j, faults(j.pc)).pc ==
      if faults(j.pc).Panic? then SetError else NextPc(j.pc, Succeeds(w, j, faults(j.pc)), j.cidr, w.ssh, j.ram)
  {
  }

  /** The order of the calls after the clone. */
  lemma CallOrder(cidr: bool, ssh: bool, ram: nat, k: nat)
    requires k < |CallsAfterClone(cidr, ssh)|
    ensures var calls := CallsAfterClone(cidr, ssh);
      && (k + 1 == |calls| ==> calls[k] == SetActive)
      && (k + 1 < |calls| ==>
          && calls[k] in {AllocIp, SetNetwork, HostDirs, PctMounts, ApiMounts, Start}
          && NextPc(calls[k], true, cidr, ssh, ram) == calls[k + 1] && NextPc(calls[k], false, cidr, ssh, ram) == Cleanup)
  {
  }

  /** From any of the calls after the clone on. */
  lemma {:induction false} SoloCalls(w: World, j: Job, k: nat, faults: Pc -> Outcome)
    requires k < |CallsAfterClone(j.cidr, w.ssh)| && j.pc == CallsAfterClone(j.cidr, w.ssh)[k]
    ensures RunJob(w, j, faults).0 ==
      Ended(w, j.tid, j.nid, j.ram, j.vmid, EndingOf(CallsAfterClone(j.cidr, w.ssh)[k..], faults), faults)
    decreases |CallsAfterClone(j.cidr, w.ssh)| - k
  {
    hide RunJob, NextPc, CallsAfterClone, AfterSetError, AfterCleanup;
    var calls := CallsAfterClone(j.cidr, w.ssh);
    CallOrder(j.cidr, w.ssh, j.ram, k);
    if k + 1 == |calls| {
      assert calls[k..] == [SetActive];
      SoloActivate(w, j, faults);
    } else {
      assert calls[k..][1..] == calls[k + 1..];
      SoloQuiet(w, j, faults);
      var j' := JobNext(w, j, faults(j.pc));
      if faults(j.pc).Panic? {
        SoloSetError(w, j', faults);
      } else if faults(j.pc).Ok? {
        SoloCalls(w, j', k + 1, faults);
      } else {
        SoloCleanup(w, j', faults);
      }
    }
  }

  lemma CloneNext(w: World, j: Job, o: Outcome)
    requires j.pc == Clone
    ensures var w', j', (boxes', cloned) := WorldNext(w, j, o), JobNext(w, j, o), CloneBox(w.boxes, j.nid, j.vmid, j.tid, o);
      && j'.tid == j.tid && j'.nid == j.nid && j'.ram == j.ram && j'.vmid == j.vmid && j'.cidr == j.cidr
      && w' == w.(boxes := boxes') && j'.pc == if !cloned then SetError else if j.cidr then AllocIp else MountsWith(w.ssh)
  {
  }

  lemma SoloClone(w: World, j: Job, faults: Pc -> Outcome)
    requires j.pc == Clone
    ensures var (boxes', cloned) := CloneBox(w.boxes, j.nid, j.vmid, j.tid, faults(Clone));
      var w' := w.(boxes := boxes');
      RunJob(w, j, faults).0 ==
      if cloned then Ended(w', j.tid, j.nid, j.ram, j.vmid, EndingOf(CallsAfterClone(j.cidr, w.ssh), faults), faults)
      else AfterSetError(w', j.tid, j.nid, j.ram, faults)
  {
    var w', j' := WorldNext(w, j, faults(Clone)), JobNext(w, j, faults(Clone));
    assert RunJob(w, j, faults) == RunJob(w', j', faults);
    var calls := CallsAfterClone(j.cidr, w.ssh);
    assert calls[0..] == calls && calls[0] == if j.cidr then AllocIp else MountsWith(w.ssh);
    CloneNext(w, j, faults(Clone));
    hide WorldNext, JobNext, CloneBox, MountsWith;
    hide RunJob, AfterSetError, AfterCleanup, CallsAfterClone, EndingOf, Ended;
    if j'.pc == SetError { SoloSetError(w', j', faults); } else { SoloCalls(w', j', 0, faults); }
  }

  /** One of the four lookups: on to the next, or to `setError`. */
  lemma SoloLookup(w: World, j: Job, faults: Pc -> Outcome) returns (j': Job)
    requires j.pc == GetProject || j.pc == GetNode || j.pc == GetClient || j.pc == NextId
    ensures RunJob(w, j, faults) == RunJob(w, j', faults)
    ensures j'.tid == j.tid && j'.nid == j.nid && j'.pid == j.pid && j'.ram == j.ram
    ensures j'.pc == if !Succeeds(w, j, faults(j.pc)) then SetError
      else match j.pc case GetProject => GetNode case GetNode => GetClient case GetClient => NextId case _ => Clone
    ensures j'.pc != SetError ==> j'.cidr == if j.pc == GetProject then w.projects[j.pid].cidr else j.cidr
    ensures j.pc == NextId && j'.pc == Clone ==> j'.vmid == faults(NextId).id
  {
    SoloQuiet(w, j, faults);
    j' := JobNext(w, j, faults(j.pc));
  }

  /** Run alone, the goroutine's calls one by one come to what `Provision` does, panics included. */
  lemma SoloRun(w: World, t: TenantId, n: NodeId, p: ProjectId, ram: nat, faults: Pc -> Outcome)
    ensures RunJob(w, Attempt(t, n, p, ram), faults).0 == AfterProvision(w, t, n, p, ram, faults)
  {
    hide RunJob, AfterSetError, AfterCleanup, CallsAfterClone, EndingOf, Ended, JobOk;
    var j := Attempt(t, n, p, ram);
    j := SoloLookup(w, j, faults);
    if j.pc != SetError { j := SoloLookup(w, j, faults); }
    if j.pc != SetError { j := SoloLookup(w, j, faults); }
    if j.pc != SetError { j := SoloLookup(w, j, faults); }
    if j.pc == SetError { SoloSetError(w, j, faults); } else { SoloClone(w, j, faults); }
  }

  class Provisioner {
    const tenantStore: TenantStore
    const nodeStore: NodeStore
    const proxmox: Hypervisor
    const projects: map<ProjectId, Project>
    const ssh: bool

    constructor (ts: TenantStore, ns: NodeStore, px: Hypervisor, projects: map<ProjectId, Project>, ssh: bool)
      ensures tenantStore == ts && nodeStore == ns && proxmox == px && this.projects == projects && this.ssh == ssh
    {
      tenantStore, nodeStore, proxmox := ts, ns, px;
      this.projects, this.ssh := projects, ssh;
    }

    ghost function View(): World
      reads tenantStore, nodeStore, proxmox
    {
      World(tenantStore.rows, nodeStore.nodes, proxmox.boxes, nodeStore.ledger, projects, ssh)
    }

    method SetError(t: TenantId, n: NodeId, ram: nat, faults: Pc -> Outcome)
      modifies tenantStore, nodeStore
      ensures View() == AfterSetError(old(View()), t, n, ram, faults)
      ensures tenantStore.rows ==
        if faults(Pc.SetError).Ok? && t in old(tenantStore.rows) && old(tenantStore.rows)[t].status in {Provisioning, Status.Deleting}
        then old(tenantStore.rows)[t := old(tenantStore.rows)[t].(status := Error)] else old(tenantStore.rows)
      ensures nodeStore.ledger == if ram > 0 && faults(ReleaseRam).Ok? then old(nodeStore.ledger) - {t} else old(nodeStore.ledger)
      ensures nodeStore.nodes ==
        if ram > 0 && faults(ReleaseRam).Ok? && n in old(nodeStore.nodes)
        then old(nodeStore.nodes)[n := NodeRow(old(nodeStore.nodes)[n].total, Floored(old(nodeStore.nodes)[n].used - ram))] else old(nodeStore.nodes)
    {
      var _ := tenantStore.SetError(t, faults(Pc.SetError).Ok?);
      if ram > 0 {
        var _ := nodeStore.ReleaseRAM(n, ram, t, faults(ReleaseRam).Ok?);
      }
    }

    method CleanupAndError(t: TenantId, n: NodeId, ram: nat, v: int, faults: Pc -> Outcome) returns (panicked: bool)
      modifies tenantStore, nodeStore, proxmox
      ensures panicked == faults(Cleanup).Panic?
      ensures proxmox.boxes == if faults(Cleanup).Ok? then old(proxmox.boxes) - {(n, v)} else old(proxmox.boxes)
      ensures panicked ==> View() == old(View())
      ensures AfterCleanup(old(View()), t, n, ram, v, faults) == if panicked then AfterSetError(View(), t, n, ram, faults) else View()
    {
      if faults(Cleanup).Panic? { return true; }
      var _ := proxmox.Delete(n, v, faults(Cleanup));
      SetError(t, n, ram, faults);
      panicked := false;
    }

    /** The routine up to its return or its first panic. What the caller's deferred recover then does makes it the
        whole of `AfterProvision`. */
    method DoProvision(t: TenantId, n: NodeId, p: ProjectId, ram: nat, faults: Pc -> Outcome) returns (panicked: bool)
      modifies tenantStore, nodeStore, proxmox
      ensures AfterProvision(old(View()), t, n, p, ram, faults) ==
        if panicked then AfterSetError(View(), t, n, ram, faults) else View()
    {
      panicked := false;
      if faults(GetProject).Panic? { return true; }
      if !faults(GetProject).Ok? || p !in projects { SetError(t, n, ram, faults); return; }
      var cidr := projects[p].cidr;
      if faults(GetNode).Panic? { return true; }
      if !faults(GetNode).Ok? || n !in nodeStore.nodes { SetError(t, n, ram, faults); return; }
      if faults(GetClient).Panic? { return true; }
      if !faults(GetClient).Ok? { SetError(t, n, ram, faults); return; }
      if faults(NextId).Panic? { return true; }
      if !faults(NextId).OkId? { SetError(t, n, ram, faults); return; }
      var v := faults(NextId).id;

      if faults(Clone).Panic? { return true; }
      var ok := proxmox.Clone(n, v, t, faults(Clone));
      if !ok { SetError(t, n, ram, faults); return; }
      panicked := Configure(t, n, ram, v, cidr, faults);
    }

    /** What follows a completed clone. */
    method Configure(t: TenantId, n: NodeId, ram: nat, v: int, cidr: bool, faults: Pc -> Outcome) returns (panicked: bool)
      modifies tenantStore, nodeStore, proxmox
      ensures Ended(old(View()), t, n, ram, v, EndingOf(CallsAfterClone(cidr, ssh), faults), faults) ==
        if panicked then AfterSetError(View(), t, n, ram, faults) else View()
    {
      panicked := false;
      ghost var start, mounts, net := [Start, SetActive], if ssh then [HostDirs, PctMounts] else [ApiMounts], if cidr then [AllocIp, SetNetwork] else [];
      EndingOfBoth(net + mounts, start, faults);
      EndingOfBoth(net, mounts, faults);
      EndingOfTwo(Start, SetActive, faults);
      EndingOfTwo(HostDirs, PctMounts, faults);
      EndingOfTwo(AllocIp, SetNetwork, faults);
      EndingOfOne(ApiMounts, faults);
      assert EndingOf([], faults) == AllOk;
      hide EndingOf, AfterSetError, AfterCleanup;
      if cidr {
        if faults(AllocIp).Panic? { return true; }
        if !faults(AllocIp).Ok? { panicked := CleanupAndError(t, n, ram, v, faults); return; }
        if faults(SetNetwork).Panic? { return true; }
        if !faults(SetNetwork).Ok? { panicked := CleanupAndError(t, n, ram, v, faults); return; }
      }

      if ssh {
        if faults(HostDirs).Panic? { return true; }
        if !faults(HostDirs).Ok? { panicked := CleanupAndError(t, n, ram, v, faults); return; }
        if faults(PctMounts).Panic? { return true; }
        if !faults(PctMounts).Ok? { panicked := CleanupAndError(t, n, ram, v, faults); return; }
      } else {
        if faults(ApiMounts).Panic? { return true; }
        if !faults(ApiMounts).Ok? { panicked := CleanupAndError(t, n, ram, v, faults); return; }
      }

      if faults(Start).Panic? { return true; }
      if !faults(Start).Ok? { panicked := CleanupAndError(t, n, ram, v, faults); return; }

      if faults(Pc.SetActive).Panic? { return true; }
      var reply := tenantStore.SetActive(t, v, faults(Pc.SetActive).Ok?);
      if reply != Done { panicked := CleanupAndError(t, n, ram, v, faults); return; }
    }

    /** The goroutine with its slot: a panic is recovered by marking the error, without a cleanup. */
    method Provision(t: TenantId, n: NodeId, p: ProjectId, ram: nat, faults: Pc -> Outcome)
      modifies tenantStore, nodeStore, proxmox
      ensures View() == AfterProvision(old(View()), t, n, p, ram, faults)
    {
      var panicked := DoProvision(t, n, p, ram, faults);
      if panicked { SetError(t, n, ram, faults); }
    }
  }

  lemma EndingOfOne(x: Pc, faults: Pc -> Outcome)
    ensures EndingOf([x], faults) == if faults(x).Panic? then Panicked else if !faults(x).Ok? then Failed else AllOk
  {
    assert [x][1..] == [];
  }

  lemma EndingOfTwo(x: Pc, y: Pc, faults: Pc -> Outcome)
    ensures EndingOf([x, y], faults) ==
      if faults(x).Panic? then Panicked else if !faults(x).Ok? then Failed
      else if faults(y).Panic? then Panicked else if !faults(y).Ok? then Failed else AllOk
  {
    assert [x, y][1..] == [y];
    EndingOfOne(y, faults);
  }

  lemma {:induction false} EndingOfBoth(xs: seq<Pc>, ys: seq<Pc>, faults: Pc -> Outcome)
    ensures EndingOf(xs + ys, faults) == if EndingOf(xs, faults) == AllOk then EndingOf(ys, faults) else EndingOf(xs, faults)
    decreases |xs|
  {
    if xs == [] {
      assert xs + ys == ys;
    } else {
      EndingOfBoth(xs[1..], ys, faults);
      assert (xs + ys)[1..] == xs[1..] + ys;
    }
  }
}
