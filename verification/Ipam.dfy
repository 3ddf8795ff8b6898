/** The table of address allocations and the statements that act on it. Each
    committed transaction is one atomic step. */
module Ipam {
  import opened Options
  import opened Sets

  datatype Status = Pending | Confirmed | Orphaned

  datatype Source = Proxmox | Stack | Manual

  datatype Alloc = Alloc(pool: int, ip: int, status: Status, source: Source, vmid: Option<int>, node: Option<int>,
                         owner: Option<string>, job: Option<string>, deployment: Option<int>, note: Option<string>,
                         confirmedAt: Option<int>, expires: Option<int>)

  type Table = map<int, Alloc>

  /** What a deploy asks for. */
  datatype Request = Request(pool: int, ip: int, source: Source, owner: Option<string>, job: Option<string>,
                             deployment: Option<int>, vmid: Option<int>, node: Option<int>)

  /** A row of `stack_deployed_resources`. */
  datatype Deployed = Deployed(vmid: Option<int>, node: Option<int>)

  datatype Step =
    | Reserve(id: int, req: Request, now: int)
    | AddManual(id: int, pool: int, ip: int, note: Option<string>, owner: Option<string>, now: int)
    | Sweep(now: int)
    | ConfirmJob(job: string, vmid: Option<int>, node: Option<int>, now: int)
    | ReleaseJob(job: string)
    | ConfirmDeployment(deployment: int, vmid: Option<int>, node: Option<int>, now: int)
    | ReleaseDeployment(deployment: int)
    | SetNote(deployment: int, ip: int, name: string)
    | ConfirmResources(deployment: int, byName: map<string, Deployed>, now: int)
    | ReleaseById(id: int)
    | VmDeleted(host: int, vm: int)
    | Refresh(host: int, visible: set<int>)
    | ReleaseOrphans(ids: set<int>)

  /** 30 minutes, in seconds */
  const TTL := 1800

  predicate Inserts(s: Step) { s.Reserve? || s.AddManual? }

  /** The row an insert writes. */
  function RowOf(s: Step): Alloc
    requires Inserts(s)
  {
    match s
    case Reserve(_, q, now) =>
      Alloc(q.pool, q.ip, Pending, q.source, q.vmid, q.node, q.owner, q.job, q.deployment, None, None, Some(now + TTL))
    case AddManual(_, pool, ip, note, owner, now) =>
      Alloc(pool, ip, Confirmed, Manual, None, None, owner, None, None, note, Some(now), None)
  }

  predicate Taken(t: Table, pool: int, ip: int)
  {
    exists id <- t :: t[id].pool == pool && t[id].ip == ip
  }

  /** The WHERE clause of a statement. */
  predicate Where(s: Step, id: int, a: Alloc)
  {
    match s
    case Reserve(_, _, _) => false
    case AddManual(_, _, _, _, _, _) => false
    case Sweep(now) => a.status == Pending && a.expires.Some? && a.expires.value < now
    case ConfirmJob(job, _, _, _) => a.job == Some(job) && a.status == Pending
    case ReleaseJob(job) => a.job == Some(job) && a.status == Pending
    case ConfirmDeployment(d, _, _, _) => a.deployment == Some(d) && a.status == Pending
    case ReleaseDeployment(d) => a.deployment == Some(d) && a.status == Pending
    case SetNote(d, ip, _) => a.deployment == Some(d) && a.ip == ip && a.status == Pending
    case ConfirmResources(d, _, _) => a.deployment == Some(d) && a.status == Pending
    case ReleaseById(i) => id == i
    case VmDeleted(host, vm) => a.node == Some(host) && a.vmid == Some(vm) && a.status != Pending
    case Refresh(host, _) => a.node == Some(host) && a.vmid.Some? && a.status != Pending
    case ReleaseOrphans(ids) => a.status == Orphaned && (ids == {} || id in ids)
  }

  function ResourceOf(byName: map<string, Deployed>, note: Option<string>): Option<Deployed>
  {
    if note.Some? && note.value in byName then Some(byName[note.value]) else None
  }

  /** Whether a row that meets the WHERE clause is deleted. */
  predicate Deletes(s: Step, a: Alloc)
  {
    match s
    case Sweep(_) => true
    case ReleaseJob(_) => true
    case ReleaseDeployment(_) => true
    case ReleaseById(_) => true
    case VmDeleted(_, _) => true
    case ReleaseOrphans(_) => true
    case ConfirmResources(_, byName, _) => ResourceOf(byName, a.note) == None
    case _ => false
  }

  function Set(value: Option<int>, current: Option<int>): Option<int>
  {
    if value.Some? then value else current
  }

  function ConfirmedRow(a: Alloc, vmid: Option<int>, node: Option<int>, now: int): Alloc
  {
    a.(status := Confirmed, confirmedAt := Some(now), expires := None, vmid := vmid, node := node)
  }

  /** What an UPDATE makes of a row that meets its WHERE clause. */
  function Updated(s: Step, a: Alloc): Alloc
  {
    match s
    case ConfirmJob(_, vmid, node, now) => ConfirmedRow(a, Set(vmid, a.vmid), Set(node, a.node), now)
    case ConfirmDeployment(_, vmid, node, now) => ConfirmedRow(a, Set(vmid, a.vmid), Set(node, a.node), now)
    case SetNote(_, _, name) => a.(note := Some(name))
    case ConfirmResources(_, byName, now) =>
      var r := ResourceOf(byName, a.note);
      if r.Some? then ConfirmedRow(a, r.value.vmid, r.value.node, now) else a
    case Refresh(_, visible) =>
      a.(status := if a.vmid.Some? && a.vmid.value in visible then Confirmed else Orphaned)
    case _ => a
  }

  predicate Removes(s: Step, id: int, a: Alloc)
  {
    Where(s, id, a) && Deletes(s, a)
  }

  function Becomes(s: Step, id: int, a: Alloc): Alloc
  {
    if Where(s, id, a) then Updated(s, a) else a
  }

  /** An insert fails on the UNIQUE constraint (pool, ip) and then changes nothing. */
  function Exec(t: Table, s: Step): Table
  {
    if Inserts(s) then
      if Taken(t, RowOf(s).pool, RowOf(s).ip) then t else t[s.id := RowOf(s)]
    else
      map id | id in t && !Removes(s, id, t[id]) :: Becomes(s, id, t[id])
  }

  /** The row count of a statement. */
  function Hits(t: Table, s: Step): set<int>
  {
    set id <- t | Where(s, id, t[id])
  }

  // ------------------------------------------------------------------- invariant

  predicate RowOk(a: Alloc)
  {
    && (a.status == Pending ==> a.expires.Some? && a.confirmedAt == None)
    && (a.status != Pending ==> a.expires == None && a.confirmedAt.Some?)
    && (a.status == Orphaned ==> a.vmid.Some? && a.node.Some?)
    && (a.source == Manual ==>
          a.status == Confirmed && a.vmid == None && a.node == None && a.job == None && a.deployment == None)
  }

  predicate Unique(t: Table)
  {
    forall i, j {:trigger t[i], t[j]} :: i in t && j in t && t[i].pool == t[j].pool && t[i].ip == t[j].ip ==> i == j
  }

  predicate Inv(t: Table)
  {
    Unique(t) && forall id <- t :: RowOk(t[id])
  }

  /** Ids are fresh, and deploys never write manual rows. */
  predicate Legal(t: Table, s: Step)
  {
    (Inserts(s) ==> s.id !in t) && (s.Reserve? ==> s.req.source != Manual)
  }

  lemma RowOkKept(s: Step, id: int, a: Alloc)
    requires RowOk(a)
    ensures RowOk(Becomes(s, id, a))
    ensures Becomes(s, id, a).pool == a.pool && Becomes(s, id, a).ip == a.ip
  {
  }

  lemma ExecRow(t: Table, s: Step, id: int)
    requires id in t && Legal(t, s)
    ensures id in Exec(t, s) <==> !Removes(s, id, t[id])
    ensures id in Exec(t, s) ==> Exec(t, s)[id] == Becomes(s, id, t[id])
  {
  }

  /** Every step keeps at most one row per pool and address, and every row in shape. */
  lemma InvKept(t: Table, s: Step)
    requires Inv(t) && Legal(t, s)
    ensures Inv(Exec(t, s))
  {
    var u := Exec(t, s);
    forall id | id in u ensures RowOk(u[id]) {
      if id in t { RowOkKept(s, id, t[id]); }
    }
    forall i, j | i in u && j in u && u[i].pool == u[j].pool && u[i].ip == u[j].ip ensures i == j {
      if !Inserts(s) {
        RowOkKept(s, i, t[i]);
        RowOkKept(s, j, t[j]);
        var p, q := t[i], t[j];
      }
    }
  }

  // -------------------------------------------------- reconciliation with the cluster

  /** UPDATE ... SET status WHERE id IN ... */
  function WithStatus(t: Table, ids: set<int>, status: Status): Table
  {
    map id <- t :: if id in ids then t[id].(status := status) else t[id]
  }

  /** The rows of a refresh that change to a status. */
  function Leaving(t: Table, rows: set<int>, visible: set<int>, from: Status): set<int>
    requires rows <= t.Keys
  {
    set id <- rows | t[id].status == from && t[id].vmid.Some? && (t[id].vmid.value in visible <==> from == Orphaned)
  }

  method SortRows(t: Table, rows: set<int>, visible: set<int>) returns (toOrphan: set<int>, toReactivate: set<int>)
    requires rows <= t.Keys && forall id <- rows :: t[id].vmid.Some?
    ensures toOrphan == Leaving(t, rows, visible, Confirmed) && toReactivate == Leaving(t, rows, visible, Orphaned)
  {
    toOrphan, toReactivate := {}, {};
    var todo := rows;
    while todo != {}
      invariant todo <= rows
      invariant toOrphan == Leaving(t, rows - todo, visible, Confirmed)
      invariant toReactivate == Leaving(t, rows - todo, visible, Orphaned)
      decreases todo
    {
      var id := Pick(todo);
      var seen := t[id].vmid.value in visible;
      assert rows - (todo - {id}) == (rows - todo) + {id};
      todo := todo - {id};
      if t[id].status == Confirmed && !seen {
        toOrphan := toOrphan + {id};
      } else if t[id].status == Orphaned && seen {
        toReactivate := toReactivate + {id};
      }
    }
    assert rows - todo == rows;
  }

  lemma RefreshRow(t: Table, host: int, visible: set<int>, id: int)
    requires id in t
    ensures var rows, u := Hits(t, Refresh(host, visible)), Exec(t, Refresh(host, visible));
      var a, b := Leaving(t, rows, visible, Confirmed), Leaving(t, rows, visible, Orphaned);
      id in u && u[id] == WithStatus(WithStatus(t, a, Orphaned), b, Confirmed)[id]
      && (u[id] != t[id] <==> id in a + b)
  {
    assert t[id].(status := t[id].status) == t[id];
  }

  lemma RefreshInTwo(t: Table, host: int, visible: set<int>)
    ensures var rows, u := Hits(t, Refresh(host, visible)), Exec(t, Refresh(host, visible));
      var a, b := Leaving(t, rows, visible, Confirmed), Leaving(t, rows, visible, Orphaned);
      u == WithStatus(WithStatus(t, a, Orphaned), b, Confirmed) && u.Keys == t.Keys
      && |a| + |b| == |set id <- t | u[id] != t[id]|
  {
    var rows, u := Hits(t, Refresh(host, visible)), Exec(t, Refresh(host, visible));
    var a, b := Leaving(t, rows, visible, Confirmed), Leaving(t, rows, visible, Orphaned);
    var v := WithStatus(WithStatus(t, a, Orphaned), b, Confirmed);
    forall id | id in t ensures id in u && u[id] == v[id] && (u[id] != t[id] <==> id in a + b) {
      RefreshRow(t, host, visible, id);
    }
    assert a !! b;
    assert (set id <- t | u[id] != t[id]) == a + b;
  }

  // ------------------------------------------------------------ the table in use

  class Allocations {
    var table: Table
    var nextId: int

    ghost predicate Valid()
      reads this
    {
      Inv(table) && forall id <- table :: id < nextId
    }

    constructor ()
      ensures Valid() && table == map[]
    {
      table, nextId := map[], 1;
    }

    /** One UPDATE or DELETE, with its row count. */
    method Execute(s: Step) returns (count: nat)
      requires Valid() && !Inserts(s)
      modifies this`table
      ensures Valid()
      ensures table == Exec(old(table), s) && count == |Hits(old(table), s)|
    {
      count := |Hits(table, s)|;
      InvKept(table, s);
      table := Exec(table, s);
    }

    /** One INSERT; no id means that the UNIQUE constraint refused it. */
    method Insert(row: Alloc) returns (id: Option<int>)
      requires Valid() && RowOk(row)
      modifies this
      ensures Valid() && nextId == (if id.Some? then old(nextId) + 1 else old(nextId))
      ensures id == None <==> Taken(old(table), row.pool, row.ip)
      ensures id == None ==> table == old(table)
      ensures id.Some? ==> id.value == old(nextId) && id.value !in old(table) && table == old(table)[id.value := row]
    {
      if Taken(table, row.pool, row.ip) {
        return None;
      }
      id := Some(nextId);
      table := table[nextId := row];
      nextId := nextId + 1;
    }

    /** `reserve_specific` */
    method ReserveSpecific(req: Request, sweepAt: int, now: int) returns (id: Option<int>)
      requires Valid() && req.source != Manual
      modifies this
      ensures Valid() && nextId == (if id.Some? then old(nextId) + 1 else old(nextId))
      ensures var swept := Exec(old(table), Sweep(sweepAt));
        (id == None <==> Taken(swept, req.pool, req.ip))
        && (id == None ==> table == swept)
        && (id.Some? ==> id.value == old(nextId) && table == Exec(swept, Reserve(id.value, req, now)))
      // the row that is written; its 30 minutes are 1800 seconds
      ensures id.Some? ==>
        table == Exec(old(table), Sweep(sweepAt))[id.value :=
          Alloc(req.pool, req.ip, Pending, req.source, req.vmid, req.node, req.owner, req.job, req.deployment, None,
                None, Some(now + 1800))]
    {
      var count := Execute(Sweep(sweepAt));
      id := Insert(RowOf(Reserve(nextId, req, now)));
    }

    /** `add_manual`: it neither sweeps first nor looks at the pool's range. */
    method AddManualRow(pool: int, ip: int, note: Option<string>, owner: Option<string>, now: int)
      returns (id: Option<int>)
      requires Valid()
      modifies this
      ensures Valid()
      ensures id == None <==> Taken(old(table), pool, ip)
      ensures id == None ==> table == old(table)
      ensures id.Some? ==>
        id.value !in old(table) && table == Exec(old(table), AddManual(id.value, pool, ip, note, owner, now))
      ensures id.Some? ==>
        table == old(table)[id.value :=
          Alloc(pool, ip, Confirmed, Manual, None, None, owner, None, None, note, Some(now), None)]
    {
      id := Insert(RowOf(AddManual(nextId, pool, ip, note, owner, now)));
    }

    /** `on_job_finished` */
    method JobFinished(job: string, success: bool, now: int) returns (count: nat)
      requires Valid()
      modifies this`table
      ensures Valid()
      ensures table == Exec(old(table), if success then ConfirmJob(job, None, None, now) else ReleaseJob(job))
    {
      if success {
        count := Execute(ConfirmJob(job, None, None, now));
      } else {
        count := Execute(ReleaseJob(job));
      }
    }

    /** `on_cluster_refresh_vanished_resources`: reads the rows of the node, sorts
        them into two lists, then updates the rows of each list. */
    method ClusterRefreshed(node: int, visible: set<int>) returns (changed: nat)
      requires Valid()
      modifies this`table
      ensures Valid()
      ensures table == Exec(old(table), Refresh(node, visible))
      ensures changed == |set id <- old(table) | table[id] != old(table)[id]|
    {
      ghost var t, u := table, Exec(table, Refresh(node, visible));
      InvKept(t, Refresh(node, visible));
      RefreshInTwo(t, node, visible);
      var toOrphan, toReactivate := SortRows(table, Hits(table, Refresh(node, visible)), visible);
      SetStatus(toOrphan, Orphaned);
      SetStatus(toReactivate, Confirmed);
      assert table == u;
      changed := |toOrphan| + |toReactivate|;
    }

    method SetStatus(ids: set<int>, status: Status)
      modifies this`table
      ensures table == WithStatus(old(table), ids, status)
    {
      table := WithStatus(table, ids, status);
    }
  }
}
