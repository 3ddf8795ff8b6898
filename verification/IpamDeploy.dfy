/** The address of a playbook deploy: reserved when the job starts, confirmed or
    released when it ends. */
module IpamDeploy {
  import opened Options
  import opened IpPools
  import opened Ipam

  /** The fields of the deploy that matter here; no address means a dynamic one. */
  datatype Deploy = Deploy(ip: Option<int>, bridge: string, hostName: Option<string>, host: Option<int>,
                           vmid: Option<int>)

  /** `Untracked`: no address, no pool for it, or IPAM switched off. */
  datatype Started = Untracked | Tracked(id: int) | Conflict

  function RequestOf(pool: Pool, d: Deploy, job: string, owner: string): Request
    requires d.ip.Some?
  {
    Request(pool.id, d.ip.value, Proxmox, Some(owner), Some(job), None, d.vmid, d.host)
  }

  predicate Managed(pools: seq<Pool>, d: Deploy)
  {
    d.ip.Some? && PoolFor(pools, d.ip.value, d.bridge, d.hostName).Some?
  }

  /** `on_playbook_job_started` */
  method PlaybookJobStarted(db: Allocations, enabled: bool, pools: seq<Pool>, d: Deploy, job: string, owner: string,
                            sweepAt: int, now: int) returns (r: Started)
    requires db.Valid()
    modifies db
    ensures db.Valid()
    ensures r.Tracked? ==> d.ip.Some?
    ensures !enabled || !Managed(pools, d) ==> r == Untracked && db.table == old(db.table)
    ensures enabled && Managed(pools, d) ==>
      var req := RequestOf(PoolFor(pools, d.ip.value, d.bridge, d.hostName).value, d, job, owner);
      var swept := Exec(old(db.table), Sweep(sweepAt));
      if Taken(swept, req.pool, req.ip) then r == Conflict && db.table == swept
      else r.Tracked? && r.id !in old(db.table) && db.table == Exec(swept, Reserve(r.id, req, now))
    // the row belongs to the job and its VM
    ensures r.Tracked? ==>
      r.id in db.table && PoolFor(pools, d.ip.value, d.bridge, d.hostName).Some?
      && db.table[r.id].pool == PoolFor(pools, d.ip.value, d.bridge, d.hostName).value.id
      && db.table[r.id].ip == d.ip.value && db.table[r.id].job == Some(job) && db.table[r.id].owner == Some(owner)
      && db.table[r.id].vmid == d.vmid && db.table[r.id].node == d.host
      && db.table[r.id].source == Proxmox && db.table[r.id].deployment == None
  {
    if !enabled || d.ip == None {
      return Untracked;
    }
    var pool := FindPoolForIp(pools, d.ip.value, d.bridge, d.hostName);
    if pool == None {
      return Untracked;
    }
    var id := db.ReserveSpecific(RequestOf(pool.value, d, job, owner), sweepAt, now);
    r := if id.Some? then Tracked(id.value) else Conflict;
  }

  predicate JobHasPending(t: Table, job: string)
  {
    exists id <- t :: Where(ReleaseJob(job), id, t[id])
  }

  /** A failed job leaves the table as it was before its reservation. */
  lemma FailureUndoesReservation(t: Table, id: int, req: Request, now: int, job: string)
    requires Legal(t, Reserve(id, req, now)) && !Taken(t, req.pool, req.ip)
    requires req.job == Some(job) && !JobHasPending(t, job)
    ensures Exec(Exec(t, Reserve(id, req, now)), ReleaseJob(job)) == t
  {
    var u := Exec(t, Reserve(id, req, now));
    assert Removes(ReleaseJob(job), id, u[id]);
    forall o | o in t ensures !Removes(ReleaseJob(job), o, u[o]) && u[o] == t[o] {
      assert !Where(ReleaseJob(job), o, t[o]);
    }
    assert Exec(u, ReleaseJob(job)).Keys == t.Keys;
  }

  /** A successful one confirms the address it reserved, for the VM and node it
      named, and nothing else changes. */
  lemma SuccessConfirmsReservation(t: Table, id: int, req: Request, now: int, job: string, at: int)
    requires Legal(t, Reserve(id, req, now)) && !Taken(t, req.pool, req.ip)
    requires req.job == Some(job) && !JobHasPending(t, job)
    ensures Exec(Exec(t, Reserve(id, req, now)), ConfirmJob(job, None, None, at))
         == t[id := ConfirmedRow(RowOf(Reserve(id, req, now)), req.vmid, req.node, at)]
  {
    var u := Exec(t, Reserve(id, req, now));
    forall o | o in t ensures Becomes(ConfirmJob(job, None, None, at), o, u[o]) == t[o] {
      assert !Where(ReleaseJob(job), o, t[o]);
    }
  }
}
