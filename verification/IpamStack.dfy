/** The addresses of a stack deployment: reserved one by one at the start, all
    or none, and confirmed or released at the end. */
module IpamStack {
  import opened Options
  import opened Sets
  import opened IpPools
  import opened Ipam
  import opened IpamRuns

  /** A VM of the stack with a static address; `sweepAt` and `now` are the clock
      readings while it is handled. */
  datatype Want = Want(name: string, ip: int, bridge: string, hostName: Option<string>, host: Option<int>,
                       sweepAt: int, now: int)

  function PoolOf(pools: seq<Pool>, w: Want): Option<Pool>
  {
    PoolFor(pools, w.ip, w.bridge, w.hostName)
  }

  function RequestOf(pool: Pool, w: Want, deployment: int, owner: string): Request
  {
    Request(pool.id, w.ip, Stack, Some(owner), None, Some(deployment), None, w.host)
  }

  predicate Own(a: Alloc, deployment: int)
  {
    a.deployment == Some(deployment) && a.status == Pending
  }

  /** The table without the deployment's pending rows. */
  function Others(t: Table, deployment: int): Table
  {
    map id <- t | !Own(t[id], deployment) :: t[id]
  }

  predicate Fresh(t: Table, deployment: int)
  {
    forall id <- t :: t[id].deployment != Some(deployment)
  }

  /** How many of the VMs lie in a pool. */
  function Pooled(pools: seq<Pool>, wants: seq<Want>): nat
  {
    if wants == [] then 0
    else Pooled(pools, wants[..|wants| - 1]) + (if PoolOf(pools, wants[|wants| - 1]).Some? then 1 else 0)
  }

  /** The time of the last sweep, if there was one. */
  function LastSweep(pools: seq<Pool>, wants: seq<Want>): Option<int>
  {
    if wants == [] then None
    else if PoolOf(pools, wants[|wants| - 1]).Some? then Some(wants[|wants| - 1].sweepAt)
    else LastSweep(pools, wants[..|wants| - 1])
  }

  function SweptAt(t: Table, at: Option<int>): Table
  {
    if at.Some? then Exec(t, Sweep(at.value)) else t
  }

  /** The note names the VM handled last among those with this address. */
  function LastNamed(pools: seq<Pool>, wants: seq<Want>, ip: int): string
  {
    if wants == [] then ""
    else
      var w := wants[|wants| - 1];
      if PoolOf(pools, w).Some? && w.ip == ip then w.name else LastNamed(pools, wants[..|wants| - 1], ip)
  }

  predicate Alive(w: Want, at: Option<int>)
  {
    at.Some? ==> at.value <= w.now + TTL
  }

  /** The row reserved for VM `i`, once the first `k` have been handled. */
  function NotedRow(pools: seq<Pool>, wants: seq<Want>, i: nat, k: nat, deployment: int, owner: string): Alloc
    requires i < k <= |wants| && PoolOf(pools, wants[i]).Some?
  {
    RowOf(Reserve(0, RequestOf(PoolOf(pools, wants[i]).value, wants[i], deployment, owner), wants[i].now))
      .(note := Some(LastNamed(pools, wants[..k], wants[i].ip)))
  }

  /** `made` gives the row id of each reserved VM; a row is there unless a later
      sweep found it expired. */
  ghost predicate Reserved(t: Table, made: map<nat, int>, pools: seq<Pool>, wants: seq<Want>, k: nat,
                           deployment: int, owner: string)
    requires k <= |wants|
  {
    && (forall i: nat :: i in made <==> i < k && PoolOf(pools, wants[i]).Some?)
    && (forall i <- made :: made[i] in t <==> Alive(wants[i], LastSweep(pools, wants[..k])))
    && (forall i <- made :: made[i] in t ==> t[made[i]] == NotedRow(pools, wants, i, k, deployment, owner))
    && (forall id <- t :: Own(t[id], deployment) ==> id in made.Values)
  }

  /** The clock never goes back. */
  predicate Clocked(wants: seq<Want>)
  {
    && (forall i :: 0 <= i < |wants| ==> wants[i].sweepAt <= wants[i].now)
    && (forall i, j :: 0 <= i < j < |wants| ==> wants[i].now <= wants[j].sweepAt)
  }

  // ---------------------------------------------- one VM at a time, others untouched

  lemma OthersSwept(t: Table, deployment: int, now: int)
    ensures Others(Exec(t, Sweep(now)), deployment) == Exec(Others(t, deployment), Sweep(now))
  {
  }

  lemma SweepAgain(t: Table, a: Option<int>, now: int)
    requires a.Some? ==> a.value <= now
    ensures Exec(SweptAt(t, a), Sweep(now)) == Exec(t, Sweep(now))
  {
  }

  lemma OthersNoted(t: Table, deployment: int, ip: int, name: string)
    ensures Others(Exec(t, SetNote(deployment, ip, name)), deployment) == Others(t, deployment)
  {
  }

  lemma OthersInserted(t: Table, id: int, req: Request, now: int, deployment: int)
    requires req.deployment == Some(deployment) && id !in t
    ensures Others(Exec(t, Reserve(id, req, now)), deployment) == Others(t, deployment)
  {
  }

  lemma OthersReserved(t: Table, id: int, req: Request, now: int, ip: int, name: string, deployment: int)
    requires req.deployment == Some(deployment) && id !in t && !Taken(t, req.pool, req.ip)
    ensures Others(Exec(Exec(t, Reserve(id, req, now)), SetNote(deployment, ip, name)), deployment)
         == Others(t, deployment)
  {
    OthersInserted(t, id, req, now, deployment);
    OthersNoted(Exec(t, Reserve(id, req, now)), deployment, ip, name);
  }

  lemma OthersReleased(t: Table, deployment: int)
    ensures Exec(t, ReleaseDeployment(deployment)) == Others(t, deployment)
  {
  }

  lemma PrefixSnoc(wants: seq<Want>, k: nat)
    requires k < |wants|
    ensures wants[..k + 1][..k] == wants[..k] && wants[..k + 1][k] == wants[k] && |wants[..k + 1]| == k + 1
  {
  }

  lemma LastNamedSnoc(pools: seq<Pool>, wants: seq<Want>, k: nat, ip: int)
    requires k < |wants|
    ensures LastNamed(pools, wants[..k + 1], ip)
         == if PoolOf(pools, wants[k]).Some? && wants[k].ip == ip then wants[k].name
            else LastNamed(pools, wants[..k], ip)
  {
    PrefixSnoc(wants, k);
  }

  lemma SkipPrefix(pools: seq<Pool>, wants: seq<Want>, k: nat)
    requires k < |wants| && PoolOf(pools, wants[k]) == None
    ensures LastSweep(pools, wants[..k + 1]) == LastSweep(pools, wants[..k])
    ensures Pooled(pools, wants[..k + 1]) == Pooled(pools, wants[..k])
  {
    PrefixSnoc(wants, k);
  }

  /** A VM whose address lies in no pool is passed over. */
  lemma SkipKeepsReserved(t: Table, made: map<nat, int>, pools: seq<Pool>, wants: seq<Want>, k: nat,
                          deployment: int, owner: string)
    requires k < |wants| && PoolOf(pools, wants[k]) == None && Reserved(t, made, pools, wants, k, deployment, owner)
    ensures Reserved(t, made, pools, wants, k + 1, deployment, owner)
  {
    SkipPrefix(pools, wants, k);
    forall i | i in made
      ensures NotedRow(pools, wants, i, k + 1, deployment, owner) == NotedRow(pools, wants, i, k, deployment, owner)
    {
      LastNamedSnoc(pools, wants, k, wants[i].ip);
    }
  }

  lemma {:induction false} LastSweepBound(pools: seq<Pool>, wants: seq<Want>, j: nat, k: nat)
    requires Clocked(wants) && j <= k < |wants|
    ensures LastSweep(pools, wants[..j]).Some? ==> LastSweep(pools, wants[..j]).value <= wants[k].sweepAt
  {
    if j > 0 {
      PrefixSnoc(wants, j - 1);
      LastSweepBound(pools, wants, j - 1, k);
    }
  }

  /** The table after VM `w` got row `id`. */
  function WithReservation(t: Table, id: int, req: Request, w: Want, deployment: int): Table
  {
    Exec(Exec(Exec(t, Sweep(w.sweepAt)), Reserve(id, req, w.now)), SetNote(deployment, w.ip, w.name))
  }

  lemma ReservationRows(t: Table, id: int, req: Request, w: Want, deployment: int, o: int)
    requires id !in t && req.deployment == Some(deployment) && req.ip == w.ip
    requires !Taken(Exec(t, Sweep(w.sweepAt)), req.pool, req.ip)
    ensures var u := WithReservation(t, id, req, w, deployment);
      && id in u && u[id] == RowOf(Reserve(0, req, w.now)).(note := Some(w.name))
      && (o in t ==> (o in u <==> !Removes(Sweep(w.sweepAt), o, t[o])))
      && (o in t && o in u ==> u[o] == Becomes(SetNote(deployment, w.ip, w.name), o, t[o]))
      && (o in u ==> o in t || o == id)
  {
  }

  /** An earlier row after one more reservation. */
  lemma EarlierRow(t: Table, pools: seq<Pool>, wants: seq<Want>, k: nat, deployment: int, owner: string,
                   id: int, o: int, i: nat)
    requires i < k < |wants| && PoolOf(pools, wants[k]).Some? && PoolOf(pools, wants[i]).Some? && Clocked(wants)
    requires o in t <==> Alive(wants[i], LastSweep(pools, wants[..k]))
    requires o in t ==> t[o] == NotedRow(pools, wants, i, k, deployment, owner)
    requires id !in t && id != o
    requires var req := RequestOf(PoolOf(pools, wants[k]).value, wants[k], deployment, owner);
      !Taken(Exec(t, Sweep(wants[k].sweepAt)), req.pool, req.ip)
    ensures var req := RequestOf(PoolOf(pools, wants[k]).value, wants[k], deployment, owner);
      var u := WithReservation(t, id, req, wants[k], deployment);
      && (o in u <==> Alive(wants[i], LastSweep(pools, wants[..k + 1])))
      && (o in u ==> u[o] == NotedRow(pools, wants, i, k + 1, deployment, owner))
  {
    var req := RequestOf(PoolOf(pools, wants[k]).value, wants[k], deployment, owner);
    ReservationRows(t, id, req, wants[k], deployment, o);
    PrefixSnoc(wants, k);
    LastSweepBound(pools, wants, k, k);
  }

  /** One more reservation. */
  lemma ReserveKeepsReserved(t: Table, made: map<nat, int>, pools: seq<Pool>, wants: seq<Want>, k: nat, deployment: int,
                             owner: string, id: int)
    requires k < |wants| && PoolOf(pools, wants[k]).Some? && Clocked(wants)
    requires Reserved(t, made, pools, wants, k, deployment, owner)
    requires id !in t && id !in made.Values
    requires var req := RequestOf(PoolOf(pools, wants[k]).value, wants[k], deployment, owner);
      !Taken(Exec(t, Sweep(wants[k].sweepAt)), req.pool, req.ip)
    ensures var req := RequestOf(PoolOf(pools, wants[k]).value, wants[k], deployment, owner);
      Reserved(WithReservation(t, id, req, wants[k], deployment), made[k := id], pools, wants, k + 1, deployment, owner)
  {
    var req := RequestOf(PoolOf(pools, wants[k]).value, wants[k], deployment, owner);
    var u := WithReservation(t, id, req, wants[k], deployment);
    var more := made[k := id];
    PrefixSnoc(wants, k);
    forall i | i in more
      ensures more[i] in u <==> Alive(wants[i], LastSweep(pools, wants[..k + 1]))
      ensures more[i] in u ==> u[more[i]] == NotedRow(pools, wants, i, k + 1, deployment, owner)
    {
      if i == k {
        ReservationRows(t, id, req, wants[k], deployment, id);
      } else {
        assert made[i] in made.Values;
        EarlierRow(t, pools, wants, k, deployment, owner, id, made[i], i);
      }
    }
    OwnRowsMade(t, made, k, deployment, id, req, wants[k]);
  }

  lemma OwnRowsMade(t: Table, made: map<nat, int>, k: nat, deployment: int, id: int, req: Request, w: Want)
    requires forall o <- t :: Own(t[o], deployment) ==> o in made.Values
    requires k !in made && id !in t && req.deployment == Some(deployment) && req.ip == w.ip
    requires !Taken(Exec(t, Sweep(w.sweepAt)), req.pool, req.ip)
    ensures var u := WithReservation(t, id, req, w, deployment);
      forall o <- u :: Own(u[o], deployment) ==> o in made[k := id].Values
  {
    var u, more := WithReservation(t, id, req, w, deployment), made[k := id];
    assert more[k] == id;
    forall o | o in u && Own(u[o], deployment) ensures o in more.Values {
      ReservationRows(t, id, req, w, deployment, o);
      if o != id {
        var i :| i in made && made[i] == o;
        assert more[i] == o;
      }
    }
  }

  /** The other rows after one more VM. */
  lemma OthersStep(before: Table, t: Table, pools: seq<Pool>, wants: seq<Want>, k: nat,
                   deployment: int, owner: string, id: int)
    requires k < |wants| && PoolOf(pools, wants[k]).Some? && Clocked(wants) && id !in t
    requires Others(t, deployment) == SweptAt(before, LastSweep(pools, wants[..k]))
    ensures var w := wants[k];
      var req, swept := RequestOf(PoolOf(pools, w).value, w, deployment, owner), Exec(t, Sweep(w.sweepAt));
      && Exec(swept, ReleaseDeployment(deployment)) == Exec(before, Sweep(w.sweepAt))
      && (!Taken(swept, req.pool, req.ip) ==>
            Others(WithReservation(t, id, req, w, deployment), deployment)
            == SweptAt(before, LastSweep(pools, wants[..k + 1])))
    ensures Pooled(pools, wants[..k + 1]) == Pooled(pools, wants[..k]) + 1
  {
    var w := wants[k];
    var req, swept := RequestOf(PoolOf(pools, w).value, w, deployment, owner), Exec(t, Sweep(w.sweepAt));
    PrefixSnoc(wants, k);
    LastSweepBound(pools, wants, k, k);
    OthersSwept(t, deployment, w.sweepAt);
    SweepAgain(before, LastSweep(pools, wants[..k]), w.sweepAt);
    OthersReleased(swept, deployment);
    if !Taken(swept, req.pool, req.ip) { OthersReserved(swept, id, req, w.now, w.ip, w.name, deployment); }
  }

  lemma FreshOthers(t: Table, deployment: int)
    requires Fresh(t, deployment)
    ensures Others(t, deployment) == t
  {
    forall id | id in t ensures !Own(t[id], deployment) { }
    assert Others(t, deployment).Keys == t.Keys;
  }

  /** The statements for one VM: after a conflict the deployment's rows are released. */
  method ReserveVm(db: Allocations, req: Request, w: Want, deployment: int) returns (id: Option<int>)
    requires db.Valid() && req.source != Manual
    modifies db
    ensures db.Valid() && db.nextId == old(db.nextId) + (if id.Some? then 1 else 0)
    ensures var swept := Exec(old(db.table), Sweep(w.sweepAt));
      (id == None <==> Taken(swept, req.pool, req.ip))
      && (id == None ==> db.table == Exec(swept, ReleaseDeployment(deployment)))
    ensures id.Some? ==>
      id.value == old(db.nextId) && db.table == WithReservation(old(db.table), id.value, req, w, deployment)
  {
    id := db.ReserveSpecific(req, w.sweepAt, w.now);
    if id == None {
      var released := db.Execute(ReleaseDeployment(deployment));
    } else {
      var noted := db.Execute(SetNote(deployment, w.ip, w.name));
    }
  }

  /** `reserve_stack_ips`; no count means the 409 conflict. */
  method ReserveStackIps(db: Allocations, enabled: bool, pools: seq<Pool>, wants: seq<Want>,
                         deployment: int, owner: string)
    returns (count: Option<nat>, ghost made: map<nat, int>)
    requires db.Valid() && Fresh(db.table, deployment) && Clocked(wants)
    modifies db
    ensures db.Valid()
    ensures !enabled ==> db.table == old(db.table) && count == Some(0)
    // all or nothing: after a conflict only what had expired by then is gone
    ensures count == None ==>
      exists i :: 0 <= i < |wants| && PoolOf(pools, wants[i]).Some?
                  && db.table == Exec(old(db.table), Sweep(wants[i].sweepAt))
    // every VM in a pool has its row, and no other live row has changed
    ensures enabled && count.Some? ==>
      count.value == Pooled(pools, wants)
      && Reserved(db.table, made, pools, wants, |wants|, deployment, owner)
      && Others(db.table, deployment) == SweptAt(old(db.table), LastSweep(pools, wants))
  {
    made := map[];
    if !enabled {
      return Some(0), made;
    }
    var reserved := 0;
    ghost var before := db.table;
    FreshOthers(before, deployment);
    for k := 0 to |wants|
      invariant db.Valid() && reserved == Pooled(pools, wants[..k])
      invariant Others(db.table, deployment) == SweptAt(before, LastSweep(pools, wants[..k]))
      invariant Reserved(db.table, made, pools, wants, k, deployment, owner)
      invariant forall i <- made :: made[i] < db.nextId
    {
      var w := wants[k];
      var pool := FindPoolForIp(pools, w.ip, w.bridge, w.hostName);
      if pool == None {
        SkipPrefix(pools, wants, k);
        SkipKeepsReserved(db.table, made, pools, wants, k, deployment, owner);
      } else {
        OthersStep(before, db.table, pools, wants, k, deployment, owner, db.nextId);
        ghost var t, newId := db.table, db.nextId;
        var id := ReserveVm(db, RequestOf(pool.value, w, deployment, owner), w, deployment);
        if id == None {
          return None, made;
        }
        ReserveKeepsReserved(t, made, pools, wants, k, deployment, owner, newId);
        made := made[k := id.value];
        reserved := reserved + 1;
      }
    }
    assert wants[..|wants|] == wants;
    count := Some(reserved);
  }

  /** What a reserved row says of its VM. */
  lemma ReservedFields(t: Table, made: map<nat, int>, pools: seq<Pool>, wants: seq<Want>, k: nat, deployment: int,
                       owner: string, i: nat)
    requires k <= |wants| && Reserved(t, made, pools, wants, k, deployment, owner) && i in made && made[i] in t
    ensures i < k && PoolOf(pools, wants[i]).Some?
    ensures var row := t[made[i]];
      && row.ip == wants[i].ip && row.pool == PoolOf(pools, wants[i]).value.id && row.node == wants[i].host
      && row.status == Pending && row.source == Stack && row.deployment == Some(deployment)
      && row.owner == Some(owner) && row.job == None && row.vmid == None
      && row.expires == Some(wants[i].now + 1800)
  {
    assert t[made[i]] == NotedRow(pools, wants, i, k, deployment, owner);
  }

  // ---------------------------------------------------------- which VM a note names

  predicate SameIpLater(pools: seq<Pool>, wants: seq<Want>, i: nat)
    requires i < |wants|
  {
    exists j :: i < j < |wants| && PoolOf(pools, wants[j]).Some? && wants[j].ip == wants[i].ip
  }

  predicate NoneAfter(pools: seq<Pool>, wants: seq<Want>, i: nat, k: nat)
    requires i < k <= |wants|
  {
    forall j :: i < j < k && PoolOf(pools, wants[j]).Some? ==> wants[j].ip != wants[i].ip
  }

  lemma NoneAfterSnoc(pools: seq<Pool>, wants: seq<Want>, i: nat, k: nat)
    requires i < k < |wants|
    ensures NoneAfter(pools, wants, i, k + 1)
       <==> NoneAfter(pools, wants, i, k) && (PoolOf(pools, wants[k]).Some? ==> wants[k].ip != wants[i].ip)
  {
  }

  lemma LastNamedStep(pools: seq<Pool>, wants: seq<Want>, i: nat, k: nat)
    requires i < k < |wants| && wants[k].name != wants[i].name
    requires LastNamed(pools, wants[..k], wants[i].ip) == wants[i].name <==> NoneAfter(pools, wants, i, k)
    ensures LastNamed(pools, wants[..k + 1], wants[i].ip) == wants[i].name <==> NoneAfter(pools, wants, i, k + 1)
  {
    LastNamedSnoc(pools, wants, k, wants[i].ip);
    NoneAfterSnoc(pools, wants, i, k);
  }

  lemma {:induction false} LastNamedIff(pools: seq<Pool>, wants: seq<Want>, i: nat, k: nat)
    requires i < k <= |wants| && PoolOf(pools, wants[i]).Some?
    requires forall j :: i < j < |wants| ==> wants[j].name != wants[i].name
    ensures LastNamed(pools, wants[..k], wants[i].ip) == wants[i].name <==> NoneAfter(pools, wants, i, k)
  {
    if k == i + 1 {
      LastNamedSnoc(pools, wants, i, wants[i].ip);
    } else {
      LastNamedIff(pools, wants, i, k - 1);
      LastNamedStep(pools, wants, i, k - 1);
    }
  }

  /** The note of a reserved row names its own VM exactly if no later VM of the
      stack holds the same address in another pool: `_set_note` matches by address
      and overwrites the earlier note. */
  lemma NoteNamesOwnIff(pools: seq<Pool>, wants: seq<Want>, i: nat, deployment: int, owner: string)
    requires i < |wants| && PoolOf(pools, wants[i]).Some?
    requires forall a, b :: 0 <= a < b < |wants| ==> wants[a].name != wants[b].name
    ensures NotedRow(pools, wants, i, |wants|, deployment, owner).note == Some(wants[i].name)
       <==> !SameIpLater(pools, wants, i)
  {
    LastNamedIff(pools, wants, i, |wants|);
    assert wants[..|wants|] == wants;
  }

  const LEFT: Pool := Pool(1, 0, 24, None, None, None, Bridge, "vmbr0", None)
  const RIGHT: Pool := Pool(2, 0, 24, None, None, None, Bridge, "vmbr1", None)
  const WANTS: seq<Want> := [Want("web", 5, "vmbr0", None, None, 0, 0), Want("db", 5, "vmbr1", None, None, 1, 1)]

  /** Two VMs with the same address on two bridges: both rows name the second VM. */
  lemma NoteOverwritten()
    ensures PoolOf([LEFT, RIGHT], WANTS[0]) == Some(LEFT) && PoolOf([LEFT, RIGHT], WANTS[1]) == Some(RIGHT)
    ensures NotedRow([LEFT, RIGHT], WANTS, 0, 2, 7, "amy").note == Some("db")
    ensures NotedRow([LEFT, RIGHT], WANTS, 1, 2, 7, "amy").note == Some("db")
  {
    assert Pow2(8) == 256;
    assert [LEFT, RIGHT][1..] == [RIGHT];
    assert Exact(5, "vmbr0", None)(LEFT) && !Exact(5, "vmbr1", None)(LEFT) && Exact(5, "vmbr1", None)(RIGHT);
    assert FirstOf([LEFT, RIGHT], Exact(5, "vmbr1", None)) == FirstOf([RIGHT], Exact(5, "vmbr1", None)) == Some(RIGHT);
    assert WANTS[..2] == WANTS;
  }

  // ------------------------------------------------------------------ confirmation

  /** A dictionary from a list of pairs: the last one of a name counts. */
  function ByName(deployed: seq<(string, Deployed)>): map<string, Deployed>
  {
    if deployed == [] then map[]
    else ByName(deployed[..|deployed| - 1])[deployed[|deployed| - 1].0 := deployed[|deployed| - 1].1]
  }

  method CollectByName(deployed: seq<(string, Deployed)>) returns (byName: map<string, Deployed>)
    ensures byName == ByName(deployed)
  {
    byName := map[];
    for i := 0 to |deployed|
      invariant byName == ByName(deployed[..i])
    {
      assert deployed[..i + 1][..i] == deployed[..i];
      byName := byName[deployed[i].0 := deployed[i].1];
    }
    assert deployed[..|deployed|] == deployed;
  }

  /** The table when the rows of `done` have been handled. */
  function Partly(t: Table, s: Step, done: set<int>): Table
  {
    map id | id in t && !(id in done && Deletes(s, t[id])) :: if id in done then Updated(s, t[id]) else t[id]
  }

  lemma PartlyStep(t: Table, s: Step, done: set<int>, id: int)
    requires id in t && id !in done
    ensures id in Partly(t, s, done) && Partly(t, s, done)[id] == t[id]
    ensures Partly(t, s, done + {id})
         == if Deletes(s, t[id]) then Partly(t, s, done) - {id} else Partly(t, s, done)[id := Updated(s, t[id])]
  {
  }

  lemma PartlyAll(t: Table, s: Step)
    requires !Inserts(s)
    ensures Partly(t, s, Hits(t, s)) == Exec(t, s) && Partly(t, s, {}) == t
  {
  }

  /** The pending rows of the deployment whose VM was deployed. */
  function Matched(t: Table, deployment: int, byName: map<string, Deployed>): set<int>
  {
    set id <- t | Own(t[id], deployment) && ResourceOf(byName, t[id].note).Some?
  }

  lemma ConfirmStep(t: Table, s: Step, done: set<int>, id: int)
    requires s.ConfirmResources? && id in t && id !in done && done <= t.Keys
    ensures var u, r := Partly(t, s, done), ResourceOf(s.byName, t[id].note);
      && id in u
      && Partly(t, s, done + {id})
         == (if r == None then u - {id} else u[id := ConfirmedRow(u[id], r.value.vmid, r.value.node, s.now)])
      && |Kept(t, s, done + {id})| == |Kept(t, s, done)| + (if r == None then 0 else 1)
      && |done + {id}| == |done| + 1
  {
    PartlyStep(t, s, done, id);
    KeptStep(t, s, done, id);
  }

  method ConfirmEach(t: Table, s: Step) returns (u: Table, confirmed: nat, released: nat)
    requires s.ConfirmResources?
    ensures u == Exec(t, s)
    ensures confirmed == |Kept(t, s, Hits(t, s))| && confirmed + released == |Hits(t, s)|
  {
    var todo := Hits(t, s);
    ghost var done: set<int> := {};
    u, confirmed, released := t, 0, 0;
    PartlyAll(t, s);
    while todo != {}
      invariant done <= t.Keys && done + todo == Hits(t, s) && done !! todo
      invariant u == Partly(t, s, done)
      invariant confirmed == |Kept(t, s, done)| && confirmed + released == |done|
      decreases todo
    {
      var id := Pick(todo);
      ConfirmStep(t, s, done, id);
      todo, done := todo - {id}, done + {id};
      var r := ResourceOf(s.byName, t[id].note);
      if r == None {
        u := u - {id};
        released := released + 1;
      } else {
        u := u[id := ConfirmedRow(u[id], r.value.vmid, r.value.node, s.now)];
        confirmed := confirmed + 1;
      }
    }
    assert done == Hits(t, s);
  }

  /** `confirm_stack_ips`: one row after the other, committed together. */
  method ConfirmStackIps(db: Allocations, deployment: int, deployed: seq<(string, Deployed)>, now: int)
    returns (confirmed: nat, released: nat)
    requires db.Valid()
    modifies db`table
    ensures db.Valid()
    ensures db.table == Exec(old(db.table), ConfirmResources(deployment, ByName(deployed), now))
    ensures confirmed == |Matched(old(db.table), deployment, ByName(deployed))|
    ensures confirmed + released == |set id <- old(db.table) | Own(old(db.table)[id], deployment)|
  {
    var byName := CollectByName(deployed);
    ghost var t := db.table;
    var s := ConfirmResources(deployment, byName, now);
    var u: Table;
    u, confirmed, released := ConfirmEach(db.table, s);
    InvKept(t, s);
    forall id | id in t ensures Where(s, id, t[id]) <==> Own(t[id], deployment) { }
    assert Hits(t, s) == set id <- t | Own(t[id], deployment);
    assert Kept(t, s, Hits(t, s)) == Matched(t, deployment, byName);
    db.table := u;
  }

  function Kept(t: Table, s: Step, ids: set<int>): set<int>
    requires ids <= t.Keys
  {
    set id <- ids | !Deletes(s, t[id])
  }

  lemma KeptSnoc(t: Table, s: Step, done: set<int>, id: int)
    requires done <= t.Keys && id in t && id !in done
    ensures id !in Kept(t, s, done)
    ensures Kept(t, s, done + {id}) == Kept(t, s, done) + (if Deletes(s, t[id]) then {} else {id})
  {
  }

  lemma KeptStep(t: Table, s: Step, done: set<int>, id: int)
    requires done <= t.Keys && id in t && id !in done
    ensures |Kept(t, s, done + {id})| == |Kept(t, s, done)| + (if Deletes(s, t[id]) then 0 else 1)
    ensures |done + {id}| == |done| + 1
  {
    KeptSnoc(t, s, done, id);
    var kept := Kept(t, s, done);
    assert kept + {} == kept;
    assert |kept + {id}| == |kept| + 1;
  }

  /** After the confirmation no row of the deployment is pending. A former pending
      row is gone exactly if no VM of its name was deployed, and is otherwise
      confirmed for that VM; every other row is as it was. */
  lemma ConfirmationConserves(t: Table, deployment: int, byName: map<string, Deployed>, now: int)
    ensures var u := Exec(t, ConfirmResources(deployment, byName, now));
      && u.Keys <= t.Keys
      && (forall id <- u :: !Own(u[id], deployment))
      && (forall id <- t :: !Own(t[id], deployment) ==> id in u && u[id] == t[id])
      && (forall id <- t :: Own(t[id], deployment) ==>
            var r := ResourceOf(byName, t[id].note);
            (id in u <==> r.Some?)
            && (id in u ==> u[id].status == Confirmed && u[id].vmid == r.value.vmid && u[id].node == r.value.node
                            && u[id].pool == t[id].pool && u[id].ip == t[id].ip))
  {
    var s := ConfirmResources(deployment, byName, now);
    forall id | id in t ensures id in Exec(t, s) <==> !Removes(s, id, t[id]) { }
  }

  /** No two resources are the same VM. */
  predicate DistinctVms(byName: map<string, Deployed>)
  {
    forall a, b :: a in byName && b in byName && a != b ==> byName[a] != byName[b]
  }

  /** From the reservation to the confirmation: a row ends up confirmed for its own
      VM exactly if no later VM of the stack has the same address in another pool.
      Otherwise it is confirmed for that other VM, or lost. */
  lemma ConfirmedForOwnVmIff(t: Table, made: map<nat, int>, pools: seq<Pool>, wants: seq<Want>, i: nat, deployment: int,
                             owner: string, byName: map<string, Deployed>, now: int)
    requires Reserved(t, made, pools, wants, |wants|, deployment, owner) && i in made && made[i] in t
    requires forall a, b :: 0 <= a < b < |wants| ==> wants[a].name != wants[b].name
    requires wants[i].name in byName && DistinctVms(byName)
    ensures var u := Exec(t, ConfirmResources(deployment, byName, now));
      made[i] in u && u[made[i]].status == Confirmed
      && Deployed(u[made[i]].vmid, u[made[i]].node) == byName[wants[i].name]
      <==> !SameIpLater(pools, wants, i)
  {
    var s, id := ConfirmResources(deployment, byName, now), made[i];
    assert t[id] == NotedRow(pools, wants, i, |wants|, deployment, owner);
    NoteNamesOwnIff(pools, wants, i, deployment, owner);
    assert Where(s, id, t[id]);
    assert t[id].note.Some?;
    assert id in Exec(t, s) <==> t[id].note.value in byName;
  }

  // --------------------------------------------- between the statements of other writers

  /** The statements a reservation of the deployment consists of. */
  predicate OfDeployment(s: Step, deployment: int)
  {
    match s
    case Sweep(_) => true
    case Reserve(_, req, _) => req.deployment == Some(deployment)
    case SetNote(d, _, _) => d == deployment
    case ReleaseDeployment(d) => d == deployment
    case _ => false
  }

  /** None of them changes a row that is not the deployment's own pending one,
      unless it has expired. */
  lemma OthersSpared(t: Table, s: Step, deployment: int, id: int)
    requires Legal(t, s) && OfDeployment(s, deployment) && id in t && !Own(t[id], deployment)
    requires s.Sweep? ==> !Where(s, id, t[id])
    ensures id in Exec(t, s) && Exec(t, s)[id] == t[id]
  {
    ExecRow(t, s, id);
  }

  predicate OwnsNothing(t: Table, deployment: int)
  {
    forall id <- t :: !Own(t[id], deployment)
  }

  /** Whatever other writers did between its statements: once a deployment has rolled
      back it owns no pending row, and owns none until it reserves again. */
  lemma {:induction false} RolledBackOwnsNothing(t: Table, steps: seq<Step>, deployment: int)
    requires AllLegal(Exec(t, ReleaseDeployment(deployment)), steps)
    requires forall s <- steps :: s.Reserve? ==> s.req.deployment != Some(deployment)
    ensures OwnsNothing(AfterAll(Exec(t, ReleaseDeployment(deployment)), steps), deployment)
  {
    OwnsNothingStays(Exec(t, ReleaseDeployment(deployment)), steps, deployment);
  }

  lemma {:induction false} OwnsNothingStays(t: Table, steps: seq<Step>, deployment: int)
    requires OwnsNothing(t, deployment) && AllLegal(t, steps)
    requires forall s <- steps :: s.Reserve? ==> s.req.deployment != Some(deployment)
    ensures OwnsNothing(AfterAll(t, steps), deployment)
    decreases steps
  {
    if steps != [] {
      var s, u := steps[0], Exec(t, steps[0]);
      assert s in steps;
      forall id | id in u ensures !Own(u[id], deployment) {
        if id in t { assert !Own(t[id], deployment) && !Own(Becomes(s, id, t[id]), deployment); }
      }
      OwnsNothingStays(u, steps[1..], deployment);
    }
  }

  // ----------------------------------------------------------------------- destroy

  predicate OfVm(a: Alloc, vms: seq<Deployed>)
  {
    a.status != Pending && a.vmid.Some? && a.node.Some? && Deployed(a.vmid, a.node) in vms
  }

  function WithoutVms(t: Table, vms: seq<Deployed>): Table
  {
    map id <- t | !OfVm(t[id], vms) :: t[id]
  }

  lemma WithoutOneMore(t: Table, vms: seq<Deployed>, d: Deployed)
    ensures WithoutVms(t, vms + [d])
         == if d.vmid.Some? && d.node.Some?
            then Exec(WithoutVms(t, vms), VmDeleted(d.node.value, d.vmid.value)) else WithoutVms(t, vms)
  {
    forall id | id in t
      ensures OfVm(t[id], vms + [d]) <==>
        OfVm(t[id], vms) || (d.vmid.Some? && d.node.Some? && Where(VmDeleted(d.node.value, d.vmid.value), id, t[id]))
    {
    }
  }

  lemma NoVms(t: Table)
    ensures WithoutVms(t, []) == t
  {
    forall id | id in t ensures !OfVm(t[id], []) { }
    assert WithoutVms(t, []).Keys == t.Keys;
  }

  /** `release_stack_on_destroy`: exactly the confirmed and orphaned rows of the
      stack's VMs go. */
  method ReleaseStackOnDestroy(db: Allocations, vms: seq<Deployed>) returns (total: nat)
    requires db.Valid()
    modifies db`table
    ensures db.Valid() && db.table == WithoutVms(old(db.table), vms)
    ensures total == |old(db.table)| - |db.table|
    ensures forall id <- old(db.table) :: id !in db.table <==>
      old(db.table)[id].status != Pending && old(db.table)[id].vmid.Some? && old(db.table)[id].node.Some?
      && exists i :: 0 <= i < |vms| && vms[i].vmid == old(db.table)[id].vmid && vms[i].node == old(db.table)[id].node
  {
    total := 0;
    ghost var t := db.table;
    NoVms(t);
    for i := 0 to |vms|
      invariant db.Valid() && db.table == WithoutVms(t, vms[..i])
      invariant total == |t| - |db.table|
    {
      assert vms[..i + 1] == vms[..i] + [vms[i]];
      WithoutOneMore(t, vms[..i], vms[i]);
      if vms[i].node.Some? && vms[i].vmid.Some? {
        DeletedCount(db.table, VmDeleted(vms[i].node.value, vms[i].vmid.value));
        var count := db.Execute(VmDeleted(vms[i].node.value, vms[i].vmid.value));
        total := total + count;
      }
    }
    assert vms[..|vms|] == vms;
  }

  lemma DeletedCount(t: Table, s: Step)
    requires s.VmDeleted?
    ensures |Exec(t, s)| == |t| - |Hits(t, s)|
  {
    assert Exec(t, s).Keys == t.Keys - Hits(t, s);
    assert t.Keys == (t.Keys - Hits(t, s)) + Hits(t, s);
  }
}
