/** The calls of the control plane as straight-line code over the stores, each proved to do, when it runs alone,
    exactly what its actor in the interleaved machine does. */
module Lifecycle {
  import opened Stores
  import opened ControlPlane
  import ProvisionJob
  import opened Wrappers

  /** A call site: where an actor stands, or the read of the updated row that closes a call and changes nothing. */
  datatype Site = AtCreate(c: CreatePc) | AtDelete(d: DeletePc) | AtToggle(t: TogglePc) | Rereading | Nowhere

  /** How the caller is answered: no error, a conflict, or an internal error. */
  datatype Answer = Success | Refused | Internal

  function SiteOf(x: Actor): Site {
    match x
    case Creating(_, _, _, _, pc) => AtCreate(pc)
    case Deleting(_, _, _, pc) => AtDelete(pc)
    case Toggling(_, _, _, pc) => AtToggle(pc)
    case _ => Nowhere
  }

  function CallsLeft(x: Actor): nat {
    match x
    case Creating(_, _, _, _, pc) => (match pc case Reserving => 3 case Inserting => 2 case Returning => 1 case Spawning => 1)
    case Deleting(_, _, _, pc) =>
      (match pc case Looking => 7 case Marking => 6 case Connecting => 5 case Removing => 4 case Freeing => 3 case Closing => 2 case Failing => 1)
    case Toggling(_, _, _, pc) => (match pc case Swapping => 3 case Acting => 2 case RollingBack => 1)
    case _ => 0
  }

  /** An actor of the machine, moved until it is idle or has become a goroutine, with nobody else moving. */
  ghost function Alone(w: World, x: Actor, faults: Site -> Outcome): (World, Actor)
    decreases CallsLeft(x)
  {
    if SiteOf(x) == Nowhere then (w, x)
    else Alone(ActorWorld(w, x, faults(SiteOf(x))), ActorNext(w, x, faults(SiteOf(x))), faults)
  }

  class LifecycleService {
    const tenantStore: TenantStore
    const nodeStore: NodeStore
    const proxmox: Hypervisor
    const projects: map<ProjectId, Project>
    const ssh: bool

    constructor (ts: TenantStore, ns: NodeStore, px: Hypervisor, projects: map<ProjectId, Project>, ssh: bool)
      ensures tenantStore == ts && nodeStore == ns && proxmox == px && this.projects == projects && this.ssh == ssh
    {
      tenantStore, nodeStore, proxmox := ts, ns, px;
      this.projects, this.ssh := projects, ssh;
    }

    ghost function View(): World
      reads tenantStore, nodeStore, proxmox
    {
      World(tenantStore.rows, nodeStore.nodes, proxmox.boxes, nodeStore.ledger, projects, ssh)
    }

    /** What a release leaves of the nodes. */
    ghost function LessRam(nodes: Nodes, n: NodeId, ram: nat): Nodes {
      if n in nodes then nodes[n := NodeRow(nodes[n].total, Floored(nodes[n].used - ram))] else nodes
    }

    /** Reserve, insert, provision; a failed insert returns the reservation. */
    method Create(t: TenantId, n: NodeId, p: ProjectId, faults: Site -> Outcome) returns (answer: Answer)
      requires p in projects
      modifies tenantStore, nodeStore
      ensures View() == Alone(old(View()), Creating(t, n, p, projects[p].ram, Reserving), faults).0
      ensures answer == Success <==> Alone(old(View()), Creating(t, n, p, projects[p].ram, Reserving), faults).1.Working?
      ensures answer == Refused <==> faults(AtCreate(Reserving)).Ok? && !Fits(old(nodeStore.nodes), n, projects[p].ram)
      ensures answer == Success <==>
        faults(AtCreate(Reserving)).Ok? && Fits(old(nodeStore.nodes), n, projects[p].ram) && faults(AtCreate(Inserting)).Ok?
      ensures answer == Success ==>
        && tenantStore.rows == old(tenantStore.rows)[t := TenantRow(n, p, Provisioning, None)]
        && nodeStore.nodes == old(nodeStore.nodes)[n := NodeRow(old(nodeStore.nodes)[n].total, old(nodeStore.nodes)[n].used + projects[p].ram)]
        && nodeStore.ledger == old(nodeStore.ledger)[t := Reservation(n, projects[p].ram)]
      ensures answer != Success && faults(AtCreate(Returning)).Ok? && (n in old(nodeStore.nodes) ==> old(nodeStore.nodes[n].used) >= 0) ==>
        tenantStore.rows == old(tenantStore.rows) && nodeStore.nodes == old(nodeStore.nodes)
    {
      var ram := projects[p].ram;
      ghost var w, x := View(), Creating(t, n, p, ram, Reserving);
      var reply := nodeStore.ReserveRAM(n, ram, t, faults(AtCreate(Reserving)).Ok?);
      ghost var x1 := ActorNext(w, x, faults(AtCreate(Reserving)));
      ghost var w1 := View();
      assert Alone(w, x, faults) == Alone(w1, x1, faults);
      if reply == Conflict { return Refused; }
      if reply == Down { return Internal; }

      if !faults(AtCreate(Inserting)).Ok? {
        var _ := nodeStore.ReleaseRAM(n, ram, t, faults(AtCreate(Returning)).Ok?);
        assert Alone(w1, x1, faults) == Alone(w1, x1.(cPc := Returning), faults) == Alone(View(), Idle, faults);
        return Internal;
      }
      tenantStore.Insert(t, TenantRow(n, p, Provisioning, None));
      ghost var job := Working(ProvisionJob.NewJob(t, n, p, ram));
      assert Alone(w1, x1, faults) == Alone(View(), x1.(cPc := Spawning), faults) == Alone(View(), job, faults);
      answer := Success;
    }

    /** The node has the RAM left. */
    static predicate Fits(nodes: Nodes, n: NodeId, ram: nat) { n in nodes && nodes[n].total - nodes[n].used >= ram }

    /** The stored row can go into deletion. */
    static predicate CanGo(rows: Rows, t: TenantId) { t in rows && rows[t].status in {Active, Error, Suspended} }

    /** The container goes: the client is there, and the delete works or finds nothing. */
    static predicate BoxGoes(boxes: Boxes, row: TenantRow, faults: Site -> Outcome)
      requires row.lxcId.Some?
    {
      && faults(AtDelete(Connecting)).Ok?
      && (faults(AtDelete(Removing)).Ok? || (faults(AtDelete(Removing)).Missing? && (row.node, row.lxcId.value) !in boxes))
    }

    /** Everything but the container: RAM as far as it is known and the release works, and the row if that works. */
    ghost predicate Closed(rows: Rows, nodes: Nodes, ledger: Ledger, t: TenantId, row: TenantRow, ram: nat, faults: Site -> Outcome)
      reads tenantStore, nodeStore
    {
      var freed := ram > 0 && faults(AtDelete(Freeing)).Ok?;
      && nodeStore.nodes == (if freed then LessRam(nodes, row.node, ram) else nodes)
      && nodeStore.ledger == (if freed then ledger - {t} else ledger)
      && tenantStore.rows ==
        if faults(AtDelete(Closing)).Ok? && t in rows && rows[t].status == Status.Deleting then rows[t := rows[t].(status := Deleted)] else rows
    }

    /** A released reservation is best effort; the last transition is not. */
    method FreeAndClose(t: TenantId, row: TenantRow, ram: nat, faults: Site -> Outcome) returns (answer: Answer)
      modifies tenantStore, nodeStore
      ensures View() == Alone(old(View()), Actor.Deleting(t, row, ram, if ram > 0 then Freeing else Closing), faults).0
      ensures answer == if faults(AtDelete(Closing)).Ok? && t in old(tenantStore.rows) && old(tenantStore.rows)[t].status == Status.Deleting
        then Success else Internal
      ensures Closed(old(tenantStore.rows), old(nodeStore.nodes), old(nodeStore.ledger), t, row, ram, faults)
    {
      ghost var w := View();
      if ram > 0 {
        var _ := nodeStore.ReleaseRAM(row.node, ram, t, faults(AtDelete(Freeing)).Ok?);
        assert Alone(w, Actor.Deleting(t, row, ram, Freeing), faults) == Alone(View(), Actor.Deleting(t, row, ram, Closing), faults);
      }
      ghost var w1 := View();
      var reply := tenantStore.SetDeleted(t, faults(AtDelete(Closing)).Ok?);
      assert Alone(w1, Actor.Deleting(t, row, ram, Closing), faults) == Alone(View(), Idle, faults);
      answer := if reply == Done then Success else Internal;
    }

    /** A teardown that has come to nothing: the row is marked failed, containers and RAM are as they were. */
    ghost predicate GaveUp(rows: Rows, nodes: Nodes, ledger: Ledger, boxes: Boxes, t: TenantId, faults: Site -> Outcome)
      reads tenantStore, nodeStore, proxmox
    {
      && nodeStore.nodes == nodes && nodeStore.ledger == ledger && proxmox.boxes == boxes
      && tenantStore.rows ==
        if faults(AtDelete(Failing)).Ok? && t in rows && rows[t].status in {Provisioning, Status.Deleting}
        then rows[t := rows[t].(status := Error)] else rows
    }

    method GiveUp(t: TenantId, faults: Site -> Outcome)
      modifies tenantStore
      ensures GaveUp(old(tenantStore.rows), nodeStore.nodes, nodeStore.ledger, proxmox.boxes, t, faults)
      ensures View() == old(View()).(tenants := MarkError(old(tenantStore.rows), t, faults(AtDelete(Failing)).Ok?).0)
    {
      var _ := tenantStore.SetError(t, faults(AtDelete(Failing)).Ok?);
    }

    /** What follows a won transition to deleting, when there is a container. */
    method RemoveBox(t: TenantId, row: TenantRow, ram: nat, faults: Site -> Outcome) returns (answer: Answer)
      requires row.lxcId.Some?
      modifies tenantStore, nodeStore, proxmox
      ensures View() == Alone(old(View()), Actor.Deleting(t, row, ram, Connecting), faults).0
      ensures answer == if BoxGoes(old(proxmox.boxes), row, faults) && faults(AtDelete(Closing)).Ok?
          && t in old(tenantStore.rows) && old(tenantStore.rows)[t].status == Status.Deleting then Success else Internal
      ensures BoxGoes(old(proxmox.boxes), row, faults) ==>
        && proxmox.boxes == old(proxmox.boxes) - {(row.node, row.lxcId.value)}
        && Closed(old(tenantStore.rows), old(nodeStore.nodes), old(nodeStore.ledger), t, row, ram, faults)
      ensures !BoxGoes(old(proxmox.boxes), row, faults) ==>
        GaveUp(old(tenantStore.rows), old(nodeStore.nodes), old(nodeStore.ledger), old(proxmox.boxes), t, faults)
    {
      ghost var w1, x1 := View(), Actor.Deleting(t, row, ram, Connecting);
      if !faults(AtDelete(Connecting)).Ok? {
        GiveUp(t, faults);
        assert Alone(w1, x1, faults) == Alone(w1, x1.(dPc := Failing), faults) == Alone(View(), Idle, faults);
        return Internal;
      }
      ghost var x2 := x1.(dPc := Removing);
      assert Alone(w1, x1, faults) == Alone(w1, x2, faults);
      var ok := proxmox.Delete(row.node, row.lxcId.value, faults(AtDelete(Removing)));
      ghost var w3, x3 := View(), ActorNext(w1, x2, faults(AtDelete(Removing)));
      assert Alone(w1, x2, faults) == Alone(w3, x3, faults);
      if !ok {
        GiveUp(t, faults);
        assert Alone(w3, x3, faults) == Alone(View(), Idle, faults);
        return Internal;
      }
      answer := FreeAndClose(t, row, ram, faults);
    }

    /** How a teardown must have left things, given what it started from, if the stored row could go into deletion. */
    ghost predicate TornDown(rows: Rows, nodes: Nodes, ledger: Ledger, boxes: Boxes, t: TenantId, row: TenantRow, ram: nat, faults: Site -> Outcome)
      requires t in rows
      reads tenantStore, nodeStore, proxmox
    {
      var deleting := rows[t := rows[t].(status := Status.Deleting)];
      if row.lxcId.Some? && !BoxGoes(boxes, row, faults) then GaveUp(deleting, nodes, ledger, boxes, t, faults)
      else
        && proxmox.boxes == (if row.lxcId.Some? then boxes - {(row.node, row.lxcId.value)} else boxes)
        && Closed(deleting, nodes, ledger, t, row, ram, faults)
    }

    /** Everything from the transition on goes through. */
    static predicate GoesThrough(boxes: Boxes, row: TenantRow, faults: Site -> Outcome) {
      (row.lxcId.Some? ==> BoxGoes(boxes, row, faults)) && faults(AtDelete(Closing)).Ok?
    }

    /** The teardown of a tenant that has a container. */
    method Deprovision(t: TenantId, row: TenantRow, ram: nat, faults: Site -> Outcome) returns (answer: Answer)
      requires row.lxcId.Some?
      modifies tenantStore, nodeStore, proxmox
      ensures View() == Alone(old(View()), Actor.Deleting(t, row, ram, Marking), faults).0
      ensures answer == Refused <==> faults(AtDelete(Marking)).Ok? && !CanGo(old(tenantStore.rows), t)
      ensures answer == Success <==>
        faults(AtDelete(Marking)).Ok? && CanGo(old(tenantStore.rows), t) && GoesThrough(old(proxmox.boxes), row, faults)
      ensures if faults(AtDelete(Marking)).Ok? && CanGo(old(tenantStore.rows), t)
        then TornDown(old(tenantStore.rows), old(nodeStore.nodes), old(nodeStore.ledger), old(proxmox.boxes), t, row, ram, faults)
        else View() == old(View())
    {
      ghost var w, x := View(), Actor.Deleting(t, row, ram, Marking);
      var reply := tenantStore.SetDeleting(t, faults(AtDelete(Marking)).Ok?);
      ghost var w1, x1 := View(), ActorNext(w, x, faults(AtDelete(Marking)));
      assert Alone(w, x, faults) == Alone(w1, x1, faults);
      if reply == Conflict { return Refused; }
      if reply == Down { return Internal; }
      answer := RemoveBox(t, row, ram, faults);
    }

    /** The project's RAM, when the project is found; a missing project is not fatal. */
    function KnownRam(row: TenantRow, faults: Site -> Outcome): Option<nat> {
      if faults(AtDelete(Looking)).Ok? && row.project in projects then Some(projects[row.project].ram)
      else if faults(AtDelete(Looking)).Missing? then Some(0)
      else None
    }

    /** The delete gets as far as the transition to deleting, and wins it. */
    predicate Wins(rows: Rows, t: TenantId, row: TenantRow, faults: Site -> Outcome) {
      && row.status in {Active, Error, Suspended}
      && KnownRam(row, faults).Some? && faults(AtDelete(Marking)).Ok? && CanGo(rows, t)
    }

    /** The tenant as seen is in no state to be deleted; or the delete gets as far as the transition, and the stored row is
        in none. */
    predicate TurnedAway(rows: Rows, t: TenantId, row: TenantRow, faults: Site -> Outcome) {
      || row.status !in {Active, Error, Suspended}
      || (KnownRam(row, faults).Some? && faults(AtDelete(Marking)).Ok? && !CanGo(rows, t))
    }

    /** Everything but the closing read. */
    method TearDown(t: TenantId, row: TenantRow, faults: Site -> Outcome) returns (answer: Answer)
      modifies tenantStore, nodeStore, proxmox
      ensures View() == if Deletable(row.status) then Alone(old(View()), Actor.Deleting(t, row, 0, Looking), faults).0 else old(View())
      ensures answer == Refused <==> TurnedAway(old(tenantStore.rows), t, row, faults)
      ensures answer == Success <==> Wins(old(tenantStore.rows), t, row, faults) && GoesThrough(old(proxmox.boxes), row, faults)
      ensures if Wins(old(tenantStore.rows), t, row, faults)
        then TornDown(old(tenantStore.rows), old(nodeStore.nodes), old(nodeStore.ledger), old(proxmox.boxes), t, row, KnownRam(row, faults).value, faults)
        else View() == old(View())
    {
      if !Deletable(row.status) { return Refused; }
      ghost var w, x := View(), Actor.Deleting(t, row, 0, Looking);
      var o := faults(AtDelete(Looking));
      var ram := 0;
      if o.Ok? && row.project in projects {
        ram := projects[row.project].ram;
      } else if !o.Missing? {
        return Internal;
      }
      ghost var x1 := x.(dRam := ram, dPc := Marking);
      assert Alone(w, x, faults) == Alone(w, x1, faults);
      if row.lxcId.Some? {
        answer := Deprovision(t, row, ram, faults);
        return;
      }
      var reply := tenantStore.SetDeleting(t, faults(AtDelete(Marking)).Ok?);
      assert Alone(w, x1, faults) == Alone(View(), ActorNext(w, x1, faults(AtDelete(Marking))), faults);
      if reply == Conflict { return Refused; }
      if reply == Down { return Internal; }
      answer := FreeAndClose(t, row, ram, faults);
    }

    /** Delete a tenant as the caller last saw it. Success is answered exactly if every call that is not best effort goes
        through, the closing read of the updated row among them; a refusal, exactly if the tenant as seen, or as
        stored, is not in a state to be deleted. */
    method Delete(t: TenantId, row: TenantRow, faults: Site -> Outcome) returns (answer: Answer)
      modifies tenantStore, nodeStore, proxmox
      ensures View() == if Deletable(row.status) then Alone(old(View()), Actor.Deleting(t, row, 0, Looking), faults).0 else old(View())
      ensures answer == Refused <==> TurnedAway(old(tenantStore.rows), t, row, faults)
      ensures answer == Success <==>
        Wins(old(tenantStore.rows), t, row, faults) && GoesThrough(old(proxmox.boxes), row, faults) && faults(Rereading).Ok?
      ensures if Wins(old(tenantStore.rows), t, row, faults)
        then TornDown(old(tenantStore.rows), old(nodeStore.nodes), old(nodeStore.ledger), old(proxmox.boxes), t, row, KnownRam(row, faults).value, faults)
        else View() == old(View())
      ensures answer == Success ==> Gone(t, row)
    {
      answer := TearDown(t, row, faults);
      if answer == Success && !faults(Rereading).Ok? { answer := Internal; }
    }

    /** The row is closed and the container it named no longer exists. */
    ghost predicate Gone(t: TenantId, row: TenantRow)
      reads tenantStore, proxmox
    {
      && t in tenantStore.rows && tenantStore.rows[t].status == Deleted
      && (row.lxcId.Some? ==> (row.node, row.lxcId.value) !in proxmox.boxes)
    }

    /** The row first, then the container; a container that does not follow takes the row back. Success is answered exactly
        if every call goes through, the closing read among them; a refusal, exactly if the tenant as seen, or as stored, is
        not in the state the request needs. An internal error leaves everything as it was if the rollback works, except
        when only the closing read failed. */
    method Toggle(t: TenantId, row: TenantRow, suspend: bool, faults: Site -> Outcome) returns (answer: Answer)
      modifies tenantStore
      ensures View() == if row.status == (if suspend then Active else Suspended)
        then Alone(old(View()), Toggling(t, suspend, row.lxcId.Some?, Swapping), faults).0 else old(View())
      ensures answer == Refused <==> row.status != Needed(suspend) || (faults(AtToggle(Swapping)).Ok? && !IsIn(old(tenantStore.rows), t, Needed(suspend)))
      ensures answer == Success <==>
        Swaps(old(tenantStore.rows), t, row, suspend, faults) && (row.lxcId.Some? ==> faults(AtToggle(Acting)).Ok?) && faults(Rereading).Ok?
      ensures tenantStore.rows ==
        if Swaps(old(tenantStore.rows), t, row, suspend, faults)
          && !(row.lxcId.Some? && !faults(AtToggle(Acting)).Ok? && faults(AtToggle(RollingBack)).Ok?)
        then old(tenantStore.rows)[t := old(tenantStore.rows)[t].(status := if suspend then Suspended else Active)]
        else old(tenantStore.rows)
    {
      if row.status != (if suspend then Active else Suspended) { return Refused; }
      ghost var w, x := View(), Toggling(t, suspend, row.lxcId.Some?, Swapping);
      var reply;
      if suspend {
        reply := tenantStore.SetSuspended(t, faults(AtToggle(Swapping)).Ok?);
      } else {
        reply := tenantStore.SetResumed(t, faults(AtToggle(Swapping)).Ok?);
      }
      ghost var w1, x1 := View(), ActorNext(w, x, faults(AtToggle(Swapping)));
      assert Alone(w, x, faults) == Alone(w1, x1, faults);
      if reply == Conflict { return Refused; }
      if reply == Down { return Internal; }
      if row.lxcId.Some? && !faults(AtToggle(Acting)).Ok? {
        assert Alone(w1, x1, faults) == Alone(w1, x1.(tPc := RollingBack), faults);
        RollBack(t, suspend, faults);
        assert Alone(w1, x1.(tPc := RollingBack), faults) == Alone(View(), Idle, faults);
        return Internal;
      }
      assert Alone(w1, x1, faults) == Alone(w1, Idle, faults);
      answer := if faults(Rereading).Ok? then Success else Internal;
    }

    /** The status a request needs. */
    static function Needed(suspend: bool): Status { if suspend then Active else Suspended }

    static predicate IsIn(rows: Rows, t: TenantId, status: Status) { t in rows && rows[t].status == status }

    /** The first update goes through. */
    static predicate Swaps(rows: Rows, t: TenantId, row: TenantRow, suspend: bool, faults: Site -> Outcome) {
      row.status == Needed(suspend) && faults(AtToggle(Swapping)).Ok? && IsIn(rows, t, Needed(suspend))
    }

    method RollBack(t: TenantId, suspend: bool, faults: Site -> Outcome)
      modifies tenantStore
      ensures View() == ToggleWorld(old(View()), Toggling(t, suspend, true, RollingBack), faults(AtToggle(RollingBack)))
      ensures tenantStore.rows ==
        if faults(AtToggle(RollingBack)).Ok? && IsIn(old(tenantStore.rows), t, if suspend then Suspended else Active)
        then old(tenantStore.rows)[t := old(tenantStore.rows)[t].(status := Needed(suspend))] else old(tenantStore.rows)
    {
      if suspend {
        var _ := tenantStore.SetResumed(t, faults(AtToggle(RollingBack)).Ok?);
      } else {
        var _ := tenantStore.SetSuspended(t, faults(AtToggle(RollingBack)).Ok?);
      }
    }
  }
}
