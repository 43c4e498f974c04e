/** The shared rows of the control plane: tenant rows, node rows and the containers on each node.

    Every statement of the two stores is one atomic SQL update, so each is given first as a
    function from the old rows to the new rows and the reply. The classes `TenantStore`,
    `NodeStore` and `Hypervisor` hold the rows and update them in place; their methods are
    proved to compute exactly those functions. `up` says whether the database, or the Proxmox
    API, answered: a call that fails has no effect. */
module Stores {
  import opened Wrappers

  // UUIDs: only equality matters.
  type TenantId = nat
  type NodeId = nat
  type ProjectId = nat

  datatype Status = Provisioning | Active | Suspended | Error | Deleting | Deleted

  datatype TenantRow = TenantRow(node: NodeId, project: ProjectId, status: Status, lxcId: Option<int>)
  datatype NodeRow = NodeRow(total: int, used: int)
  datatype Project = Project(ram: nat, cidr: bool)

  /** A reservation that no release has returned yet. */
  datatype Reservation = Reservation(node: NodeId, ram: nat)

  type Rows = map<TenantId, TenantRow>
  type Nodes = map<NodeId, NodeRow>
  type Boxes = map<(NodeId, int), TenantId>
  type Ledger = map<TenantId, Reservation>

  /** `Done` is a nil error, `Conflict` is "no row matched", `Down` is any other store error. */
  datatype Reply = Done | Conflict | Down

  // ---- tenant rows -------------------------------------------------------------------------

  function Transition(rows: Rows, id: TenantId, from: set<Status>, to: Status, up: bool): (Rows, Reply) {
    if !up then (rows, Down)
    else if id in rows && rows[id].status in from then (rows[id := rows[id].(status := to)], Done)
    else (rows, Conflict)
  }

  function MarkSuspended(rows: Rows, id: TenantId, up: bool): (Rows, Reply) {
    Transition(rows, id, {Active}, Suspended, up)
  }

  function MarkResumed(rows: Rows, id: TenantId, up: bool): (Rows, Reply) {
    Transition(rows, id, {Suspended}, Active, up)
  }

  function MarkActive(rows: Rows, id: TenantId, lxcId: int, up: bool): (Rows, Reply) {
    var (rows', reply) := Transition(rows, id, {Provisioning}, Active, up);
    (if reply == Done then rows'[id := rows'[id].(lxcId := Some(lxcId))] else rows', reply)
  }

  function MarkError(rows: Rows, id: TenantId, up: bool): (Rows, Reply) {
    Transition(rows, id, {Provisioning, Deleting}, Error, up)
  }

  function MarkDeleting(rows: Rows, id: TenantId, up: bool): (Rows, Reply) {
    Transition(rows, id, {Active, Error, Suspended}, Deleting, up)
  }

  function MarkDeleted(rows: Rows, id: TenantId, up: bool): (Rows, Reply) {
    Transition(rows, id, {Deleting}, Deleted, up)
  }

  /** How a conditional update is answered, by whether the store is up and its condition matches a row. */
  function Swapped(up: bool, matches: bool): Reply { if !up then Down else if matches then Done else Conflict }

  class TenantStore {
    var rows: Rows

    constructor ()
      ensures rows == map[]
    {
      rows := map[];
    }

    method Insert(id: TenantId, row: TenantRow)
      modifies this
      ensures rows == old(rows)[id := row]
    {
      rows := rows[id := row];
    }

    method SetSuspended(id: TenantId, up: bool) returns (reply: Reply)
      modifies this
      ensures (rows, reply) == MarkSuspended(old(rows), id, up)
      ensures reply == Swapped(up, id in old(rows) && old(rows)[id].status in {Active})
      ensures rows == if reply == Done then old(rows)[id := old(rows)[id].(status := Suspended)] else old(rows)
    {
      reply := CompareAndSwap(id, {Active}, Suspended, up);
    }

    method SetResumed(id: TenantId, up: bool) returns (reply: Reply)
      modifies this
      ensures (rows, reply) == MarkResumed(old(rows), id, up)
      ensures reply == Swapped(up, id in old(rows) && old(rows)[id].status in {Suspended})
      ensures rows == if reply == Done then old(rows)[id := old(rows)[id].(status := Active)] else old(rows)
    {
      reply := CompareAndSwap(id, {Suspended}, Active, up);
    }

    method SetActive(id: TenantId, lxcId: int, up: bool) returns (reply: Reply)
      modifies this
      ensures (rows, reply) == MarkActive(old(rows), id, lxcId, up)
      ensures reply == Swapped(up, id in old(rows) && old(rows)[id].status == Provisioning)
      ensures rows == if reply == Done then old(rows)[id := old(rows)[id].(status := Active, lxcId := Some(lxcId))] else old(rows)
    {
      reply := CompareAndSwap(id, {Provisioning}, Active, up);
      if reply == Done {
        rows := rows[id := rows[id].(lxcId := Some(lxcId))];
      }
    }

    method SetError(id: TenantId, up: bool) returns (reply: Reply)
      modifies this
      ensures (rows, reply) == MarkError(old(rows), id, up)
      ensures reply == Swapped(up, id in old(rows) && old(rows)[id].status in {Provisioning, Deleting})
      ensures rows == if reply == Done then old(rows)[id := old(rows)[id].(status := Error)] else old(rows)
    {
      reply := CompareAndSwap(id, {Provisioning, Deleting}, Error, up);
    }

    method SetDeleting(id: TenantId, up: bool) returns (reply: Reply)
      modifies this
      ensures (rows, reply) == MarkDeleting(old(rows), id, up)
      ensures reply == Swapped(up, id in old(rows) && old(rows)[id].status in {Active, Error, Suspended})
      ensures rows == if reply == Done then old(rows)[id := old(rows)[id].(status := Deleting)] else old(rows)
    {
      reply := CompareAndSwap(id, {Active, Error, Suspended}, Deleting, up);
    }

    method SetDeleted(id: TenantId, up: bool) returns (reply: Reply)
      modifies this
      ensures (rows, reply) == MarkDeleted(old(rows), id, up)
      ensures reply == Swapped(up, id in old(rows) && old(rows)[id].status in {Deleting})
      ensures rows == if reply == Done then old(rows)[id := old(rows)[id].(status := Deleted)] else old(rows)
    {
      reply := CompareAndSwap(id, {Deleting}, Deleted, up);
    }

    /** `UPDATE tenants SET status = to WHERE id = id AND status IN from`. */
    method CompareAndSwap(id: TenantId, from: set<Status>, to: Status, up: bool) returns (reply: Reply)
      modifies this
      ensures (rows, reply) == Transition(old(rows), id, from, to, up)
      ensures reply == Swapped(up, id in old(rows) && old(rows)[id].status in from)
      ensures rows == if reply == Done then old(rows)[id := old(rows)[id].(status := to)] else old(rows)
    {
      if !up { return Down; }
      if id !in rows || rows[id].status !in from { return Conflict; }
      rows := rows[id := rows[id].(status := to)];
      reply := Done;
    }
  }

  // ---- node rows ---------------------------------------------------------------------------

  /** `GREATEST(x, 0)`. */
  function Floored(x: int): int { if x < 0 then 0 else x }

  function Reserve(nodes: Nodes, ledger: Ledger, n: NodeId, ram: nat, t: TenantId, up: bool): (Nodes, Ledger, Reply) {
    if !up then (nodes, ledger, Down)
    else if n in nodes && nodes[n].total - nodes[n].used >= ram then
      (nodes[n := nodes[n].(used := nodes[n].used + ram)], ledger[t := Reservation(n, ram)], Done)
    else (nodes, ledger, Conflict)
  }

  function Release(nodes: Nodes, ledger: Ledger, n: NodeId, ram: nat, t: TenantId, up: bool): (Nodes, Ledger, Reply) {
    if !up then (nodes, ledger, Down)
    else
      (if n in nodes then nodes[n := nodes[n].(used := Floored(nodes[n].used - ram))] else nodes,
       ledger - {t}, Done)
  }

  function Resize(nodes: Nodes, n: NodeId, total: int, up: bool): (Nodes, Reply) {
    if !up then (nodes, Down)
    else if n in nodes && nodes[n].used <= total then (nodes[n := nodes[n].(total := total)], Done)
    else (nodes, Conflict)
  }

  /** `ledger` is a ghost record of whose reservations are still out; the table has no such column. */
  class NodeStore {
    var nodes: Nodes
    ghost var ledger: Ledger

    constructor ()
      ensures nodes == map[] && ledger == map[]
    {
      nodes, ledger := map[], map[];
    }

    method ReserveRAM(n: NodeId, ram: nat, ghost t: TenantId, up: bool) returns (reply: Reply)
      modifies this
      ensures (nodes, ledger, reply) == Reserve(old(nodes), old(ledger), n, ram, t, up)
      ensures reply == Swapped(up, n in old(nodes) && old(nodes)[n].total - old(nodes)[n].used >= ram)
      ensures nodes == if reply == Done then old(nodes)[n := NodeRow(old(nodes)[n].total, old(nodes)[n].used + ram)] else old(nodes)
      ensures ledger == if reply == Done then old(ledger)[t := Reservation(n, ram)] else old(ledger)
    {
      if !up { return Down; }
      if n !in nodes || nodes[n].total - nodes[n].used < ram { return Conflict; }
      nodes := nodes[n := nodes[n].(used := nodes[n].used + ram)];
      ledger := ledger[t := Reservation(n, ram)];
      reply := Done;
    }

    method ReleaseRAM(n: NodeId, ram: nat, ghost t: TenantId, up: bool) returns (reply: Reply)
      modifies this
      ensures (nodes, ledger, reply) == Release(old(nodes), old(ledger), n, ram, t, up)
      ensures reply == (if up then Done else Down) && ledger == (if up then old(ledger) - {t} else old(ledger))
      ensures nodes == if up && n in old(nodes) then old(nodes)[n := NodeRow(old(nodes)[n].total, Floored(old(nodes)[n].used - ram))] else old(nodes)
    {
      if !up { return Down; }
      if n in nodes {
        nodes := nodes[n := nodes[n].(used := Floored(nodes[n].used - ram))];
      }
      ledger := ledger - {t};
      reply := Done;
    }

    /** The RAM guard of `Update`: a total below what is allocated matches no row. */
    method SetTotal(n: NodeId, total: int, up: bool) returns (reply: Reply)
      modifies this
      ensures (nodes, reply) == Resize(old(nodes), n, total, up) && ledger == old(ledger)
      ensures reply == Swapped(up, n in old(nodes) && old(nodes)[n].used <= total)
      ensures nodes == if reply == Done then old(nodes)[n := NodeRow(total, old(nodes)[n].used)] else old(nodes)
    {
      if !up { return Down; }
      if n !in nodes || nodes[n].used > total { return Conflict; }
      nodes := nodes[n := nodes[n].(total := total)];
      reply := Done;
    }
  }

  // ---- containers --------------------------------------------------------------------------

  /** How a Proxmox call, or any other fallible call, came out. `Lost` is a task whose wait
      reported failure although the container had been created. */
  datatype Outcome = Ok | OkId(id: int) | Missing | Fail | Lost | Panic

  function CloneBox(boxes: Boxes, n: NodeId, v: int, t: TenantId, o: Outcome): (Boxes, bool) {
    if (n, v) in boxes then (boxes, false)
    else if o.Ok? then (boxes[(n, v) := t], true)
    else if o.Lost? then (boxes[(n, v) := t], false)
    else (boxes, false)
  }

  /** A container that is already gone counts as deleted. */
  function DeleteBox(boxes: Boxes, n: NodeId, v: int, o: Outcome): (Boxes, bool) {
    if o.Ok? then (boxes - {(n, v)}, true)
    else if (n, v) !in boxes then (boxes, o.Missing?)
    else (boxes, false)
  }

  /** The containers on every node, keyed by node and VMID, each with the tenant it was cloned for. */
  class Hypervisor {
    var boxes: Boxes

    constructor ()
      ensures boxes == map[]
    {
      boxes := map[];
    }

    method Clone(n: NodeId, v: int, t: TenantId, o: Outcome) returns (ok: bool)
      modifies this
      ensures (boxes, ok) == CloneBox(old(boxes), n, v, t, o)
      ensures ok <==> o.Ok? && (n, v) !in old(boxes)
      ensures boxes == if (o.Ok? || o.Lost?) && (n, v) !in old(boxes) then old(boxes)[(n, v) := t] else old(boxes)
    {
      if (n, v) in boxes || !(o.Ok? || o.Lost?) { return false; }
      boxes := boxes[(n, v) := t];
      ok := o.Ok?;
    }

    method Delete(n: NodeId, v: int, o: Outcome) returns (ok: bool)
      modifies this
      ensures (boxes, ok) == DeleteBox(old(boxes), n, v, o)
      ensures ok <==> o.Ok? || (o.Missing? && (n, v) !in old(boxes))
      ensures boxes == if o.Ok? then old(boxes) - {(n, v)} else old(boxes)
    {
      if o.Ok? {
        boxes := boxes - {(n, v)};
        return true;
      }
      ok := (n, v) !in boxes && o.Missing?;
    }
  }

  // ---- the whole shared state --------------------------------------------------------------

  /** `projects` and `ssh` never change; everything else does. */
  datatype World = World(
    tenants: Rows, nodes: Nodes, boxes: Boxes, ledger: Ledger,
    projects: map<ProjectId, Project>, ssh: bool)
  {
    function Freed(n: NodeId, ram: nat, t: TenantId, up: bool): World {
      var (nodes', ledger', _) := Release(nodes, ledger, n, ram, t, up);
      this.(nodes := nodes', ledger := ledger')
    }
  }

  /** The transitions a tenant's status may ever take. */
  predicate Edge(a: Status, b: Status) {
    || a == b
    || (a == Provisioning && b in {Active, Error})
    || (a == Active && b in {Suspended, Deleting})
    || (a == Suspended && b in {Active, Deleting})
    || (a == Error && b == Deleting)
    || (a == Deleting && b in {Deleted, Error})
  }

  /** No row disappears, no row leaves the status graph, and node, project and a recorded
      container id never change. */
  ghost predicate RowsFollowGraph(rows: Rows, rows': Rows) {
    forall t :: t in rows ==>
      && t in rows'
      && Edge(rows[t].status, rows'[t].status)
      && rows'[t].node == rows[t].node && rows'[t].project == rows[t].project
      && (rows[t].status != Provisioning ==> rows'[t].lxcId == rows[t].lxcId)
  }

  lemma TransitionFollowsGraph(rows: Rows, id: TenantId, from: set<Status>, to: Status, up: bool)
    requires forall f :: f in from ==> Edge(f, to)
    ensures RowsFollowGraph(rows, Transition(rows, id, from, to, up).0)
  {
  }

  lemma ActivationFollowsGraph(rows: Rows, id: TenantId, v: int, up: bool)
    ensures RowsFollowGraph(rows, MarkActive(rows, id, v, up).0)
  {
  }
}
