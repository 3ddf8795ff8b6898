/** What holds of the allocation table over whole runs of statements, from
    whichever deploys, deletes and refreshes they come and in whichever order. */
module IpamRuns {
  import opened Options
  import opened Ipam

  function AfterAll(t: Table, steps: seq<Step>): Table
    decreases steps
  {
    if steps == [] then t else AfterAll(Exec(t, steps[0]), steps[1..])
  }

  predicate AllLegal(t: Table, steps: seq<Step>)
    decreases steps
  {
    steps != [] ==> Legal(t, steps[0]) && AllLegal(Exec(t, steps[0]), steps[1..])
  }

  lemma {:induction false} AfterAppend(t: Table, a: seq<Step>, b: seq<Step>)
    ensures AfterAll(t, a + b) == AfterAll(AfterAll(t, a), b)
    ensures AllLegal(t, a + b) <==> AllLegal(t, a) && AllLegal(AfterAll(t, a), b)
    decreases a
  {
    if a == [] {
      assert a + b == b;
    } else {
      assert (a + b)[0] == a[0] && (a + b)[1..] == a[1..] + b;
      AfterAppend(Exec(t, a[0]), a[1..], b);
    }
  }

  /** In every reachable state each (pool, ip) has at most one row and all rows are in shape. */
  lemma {:induction false} InvReached(t: Table, steps: seq<Step>)
    requires Inv(t) && AllLegal(t, steps)
    ensures var u := AfterAll(t, steps); Unique(u) && forall id <- u :: RowOk(u[id])
    decreases steps
  {
    if steps != [] {
      InvKept(t, steps[0]);
      InvReached(Exec(t, steps[0]), steps[1..]);
    }
  }

  // ----------------------------------------------------------------- exclusivity

  /** Step `k` deletes the row `id`. */
  predicate RemovedAt(t: Table, steps: seq<Step>, id: int, k: nat)
  {
    k < |steps|
    && var u := AfterAll(t, steps[..k]);
      id in u && id !in Exec(u, steps[k]) && Removes(steps[k], id, u[id])
  }

  predicate Holds(t: Table, id: int, pool: int, ip: int)
  {
    id in t && t[id].pool == pool && t[id].ip == ip
  }

  lemma RemovedLater(t: Table, s: Step, rest: seq<Step>, id: int, k: nat)
    requires RemovedAt(Exec(t, s), rest, id, k)
    ensures RemovedAt(t, [s] + rest, id, k + 1)
  {
    assert ([s] + rest)[..k + 1] == [s] + rest[..k];
    assert ([s] + rest[..k])[1..] == rest[..k];
  }

  /** A row keeps its pool and address until a step deletes it. */
  lemma {:induction false} RowFate(t: Table, steps: seq<Step>, id: int)
    requires Inv(t) && id in t && AllLegal(t, steps)
    ensures Holds(AfterAll(t, steps), id, t[id].pool, t[id].ip) || exists k: nat :: RemovedAt(t, steps, id, k)
    decreases steps
  {
    if steps != [] {
      var s, rest := steps[0], steps[1..];
      assert steps == [s] + rest;
      ExecRow(t, s, id);
      if Removes(s, id, t[id]) {
        assert steps[..0] == [];
        assert RemovedAt(t, steps, id, 0);
      } else {
        RowOkKept(s, id, t[id]);
        InvKept(t, s);
        RowFate(Exec(t, s), rest, id);
        if !Holds(AfterAll(t, steps), id, t[id].pool, t[id].ip) {
          var k: nat :| RemovedAt(Exec(t, s), rest, id, k);
          RemovedLater(t, s, rest, id, k);
        }
      }
    }
  }

  /** Step `i` inserts a row: the UNIQUE constraint lets it through. */
  predicate InsertedAt(t: Table, steps: seq<Step>, i: nat)
  {
    i < |steps| && Inserts(steps[i]) && !Taken(AfterAll(t, steps[..i]), RowOf(steps[i]).pool, RowOf(steps[i]).ip)
  }

  lemma Prefixes(t: Table, steps: seq<Step>, i: nat, j: nat)
    requires i <= j <= |steps|
    ensures AfterAll(t, steps[..j]) == AfterAll(AfterAll(t, steps[..i]), steps[i..j])
    ensures AllLegal(t, steps) ==> AllLegal(t, steps[..i]) && AllLegal(AfterAll(t, steps[..i]), steps[i..j])
  {
    assert steps[..j] == steps[..i] + steps[i..j];
    AfterAppend(t, steps[..i], steps[i..j]);
    assert steps == steps[..j] + steps[j..];
    AfterAppend(t, steps[..j], steps[j..]);
  }

  lemma RemovedWithin(t: Table, steps: seq<Step>, i: nat, j: nat, id: int, k: nat)
    requires i <= j <= |steps| && RemovedAt(AfterAll(t, steps[..i]), steps[i..j], id, k)
    ensures i + k < j && RemovedAt(t, steps, id, i + k)
  {
    Prefixes(t, steps, i, i + k);
    assert steps[i..j][..k] == steps[i..i + k];
  }

  lemma AfterStep(t: Table, steps: seq<Step>, i: nat)
    requires i < |steps|
    ensures AfterAll(t, steps[..i + 1]) == Exec(AfterAll(t, steps[..i]), steps[i])
  {
    Prefixes(t, steps, i, i + 1);
    assert steps[i..i + 1] == [steps[i]];
  }

  /** Two reservations of one address, by deploys or by hand, never overlap: the
      first one's row was deleted by a step in between. */
  lemma Exclusive(steps: seq<Step>, i: nat, j: nat)
    requires AllLegal(map[], steps) && i < j && InsertedAt(map[], steps, i) && InsertedAt(map[], steps, j)
    requires RowOf(steps[i]).pool == RowOf(steps[j]).pool && RowOf(steps[i]).ip == RowOf(steps[j]).ip
    ensures exists k :: i < k < j && RemovedAt(map[], steps, steps[i].id, k)
  {
    var id, after, mid := steps[i].id, AfterAll(map[], steps[..i + 1]), steps[i + 1..j];
    AfterStep(map[], steps, i);
    Prefixes(map[], steps, i + 1, j);
    InvReached(map[], steps[..i + 1]);
    RowFate(after, mid, id);
    if k: nat :| RemovedAt(after, mid, id, k) {
      RemovedWithin(map[], steps, i + 1, j, id, k);
    } else {
      assert false;
    }
  }

  // ------------------------------------------------------- who may delete which row

  /** Only `release_by_id` deletes a manual row, and nothing changes it. */
  lemma ManualRemovedIff(t: Table, s: Step, id: int)
    requires Inv(t) && Legal(t, s) && id in t && t[id].source == Manual
    ensures id !in Exec(t, s) <==> s == ReleaseById(id)
    ensures id in Exec(t, s) ==> Exec(t, s)[id] == t[id]
  {
    ExecRow(t, s, id);
    assert RowOk(t[id]);
  }

  lemma {:induction false} ManualStays(t: Table, steps: seq<Step>, id: int)
    requires Inv(t) && AllLegal(t, steps) && id in t && t[id].source == Manual && ReleaseById(id) !in steps
    ensures id in AfterAll(t, steps) && AfterAll(t, steps)[id] == t[id]
    decreases steps
  {
    if steps != [] {
      assert steps[0] in steps;
      ManualRemovedIff(t, steps[0], id);
      InvKept(t, steps[0]);
      ManualStays(Exec(t, steps[0]), steps[1..], id);
    }
  }

  /** A confirmed row leaves the table by hand or with its VM, never by a failed
      job, a failed stack or the sweep. */
  lemma ConfirmedRemovedIff(t: Table, s: Step, id: int)
    requires Legal(t, s) && id in t && t[id].status == Confirmed
    ensures id !in Exec(t, s) <==>
      s == ReleaseById(id) || (s.VmDeleted? && t[id].node == Some(s.host) && t[id].vmid == Some(s.vm))
  {
    ExecRow(t, s, id);
  }

  /** An orphaned row is released by an orphan release, by hand or with its VM. */
  lemma OrphanRemovedIff(t: Table, s: Step, id: int)
    requires Legal(t, s) && id in t && t[id].status == Orphaned
    ensures id !in Exec(t, s) <==>
      s == ReleaseById(id) || (s.VmDeleted? && t[id].node == Some(s.host) && t[id].vmid == Some(s.vm))
      || (s.ReleaseOrphans? && (s.ids == {} || id in s.ids))
  {
    ExecRow(t, s, id);
  }

  /** A pending row leaves the table by a sweep after its expiry, by hand, with its
      job or its deployment, or when the deployment is confirmed without its VM. */
  lemma PendingRemovedIff(t: Table, s: Step, id: int)
    requires Legal(t, s) && id in t && t[id].status == Pending
    ensures id !in Exec(t, s) <==>
      s == ReleaseById(id)
      || (s.Sweep? && t[id].expires.Some? && t[id].expires.value < s.now)
      || (s.ReleaseJob? && t[id].job == Some(s.job))
      || (s.ReleaseDeployment? && t[id].deployment == Some(s.deployment))
      || (s.ConfirmResources? && t[id].deployment == Some(s.deployment)
          && (t[id].note == None || t[id].note.value !in s.byName))
  {
    ExecRow(t, s, id);
  }

  /** A pending row is confirmed by its job, its deployment or the VM of its note, and
      a note is the only other thing that is ever changed in it. */
  lemma PendingConfirmedIff(t: Table, s: Step, id: int)
    requires Legal(t, s) && id in t && t[id].status == Pending && id in Exec(t, s)
    ensures Exec(t, s)[id].status != Pending <==>
      (s.ConfirmJob? && t[id].job == Some(s.job))
      || (s.ConfirmDeployment? && t[id].deployment == Some(s.deployment))
      || (s.ConfirmResources? && t[id].deployment == Some(s.deployment))
    ensures Exec(t, s)[id].status != Pending ==>
      && Exec(t, s)[id] == t[id].(status := Confirmed, confirmedAt := Some(s.now), expires := None,
                                  vmid := Exec(t, s)[id].vmid, node := Exec(t, s)[id].node)
      && (if s.ConfirmResources? then
            t[id].note.Some? && t[id].note.value in s.byName
            && Exec(t, s)[id].vmid == s.byName[t[id].note.value].vmid
            && Exec(t, s)[id].node == s.byName[t[id].note.value].node
          else
            Exec(t, s)[id].vmid == (if s.vmid == None then t[id].vmid else s.vmid)
            && Exec(t, s)[id].node == (if s.node == None then t[id].node else s.node))
    ensures Exec(t, s)[id].status == Pending ==>
      Exec(t, s)[id] == if s.SetNote? && t[id].deployment == Some(s.deployment) && t[id].ip == s.ip
                        then t[id].(note := Some(s.name)) else t[id]
  {
    ExecRow(t, s, id);
  }

  /** A row that is not pending is only ever changed by a refresh of its node: it is
      confirmed while its VM is visible and orphaned while it is not. */
  lemma RefreshDecides(t: Table, s: Step, id: int)
    requires Legal(t, s) && id in t && t[id].status != Pending && id in Exec(t, s)
    ensures Exec(t, s)[id] ==
      if s.Refresh? && t[id].node == Some(s.host) && t[id].vmid.Some?
      then t[id].(status := if t[id].vmid.value in s.visible then Confirmed else Orphaned)
      else t[id]
  {
    ExecRow(t, s, id);
  }

  // ----------------------------------------------- long deploys against the sweep

  /** A step that neither addresses the row nor reuses its id. */
  predicate Ignores(s: Step, id: int, a: Alloc)
  {
    if Inserts(s) then s.id != id else s.Sweep? || !Where(s, id, a)
  }

  predicate SweptBy(steps: seq<Step>, expiry: int)
  {
    exists s <- steps :: s.Sweep? && expiry < s.now
  }

  lemma {:induction false} StaysAway(t: Table, steps: seq<Step>, id: int)
    requires id !in t && forall s <- steps :: Inserts(s) ==> s.id != id
    ensures id !in AfterAll(t, steps)
    decreases steps
  {
    if steps != [] {
      assert steps[0] in steps;
      StaysAway(Exec(t, steps[0]), steps[1..], id);
    }
  }

  /** A pending row that nobody addresses is still there, unchanged, exactly if
      no sweep ran after its expiry. */
  lemma {:induction false} PendingKeptIff(t: Table, steps: seq<Step>, id: int)
    requires id in t && t[id].status == Pending && t[id].expires.Some? && AllLegal(t, steps)
    requires forall s <- steps :: Ignores(s, id, t[id])
    ensures id in AfterAll(t, steps) <==> !SweptBy(steps, t[id].expires.value)
    ensures id in AfterAll(t, steps) ==> AfterAll(t, steps)[id] == t[id]
    decreases steps
  {
    if steps != [] {
      var s, rest := steps[0], steps[1..];
      assert s in steps && steps == [s] + rest;
      ExecRow(t, s, id);
      if s.Sweep? && t[id].expires.value < s.now {
        forall r | r in rest && Inserts(r) ensures r.id != id { assert Ignores(r, id, t[id]); }
        StaysAway(Exec(t, s), rest, id);
      } else {
        PendingKeptIff(Exec(t, s), rest, id);
      }
    }
  }

  /** A deploy whose job succeeds gets its address confirmed exactly if no sweep
      ran more than 30 minutes after the reservation. */
  lemma DeployConfirmedIff(t: Table, id: int, req: Request, now: int, steps: seq<Step>, at: int)
    requires Inv(t) && Legal(t, Reserve(id, req, now)) && !Taken(t, req.pool, req.ip) && req.job.Some?
    requires var u := Exec(t, Reserve(id, req, now));
      AllLegal(u, steps) && forall s <- steps :: Ignores(s, id, RowOf(Reserve(id, req, now)))
    ensures var u := Exec(t, Reserve(id, req, now));
      var end := Exec(AfterAll(u, steps), ConfirmJob(req.job.value, None, None, at));
      id in end && end[id].status == Confirmed && Holds(end, id, req.pool, req.ip)
      <==> forall s <- steps :: s.Sweep? ==> s.now <= now + TTL
  {
    var u := Exec(t, Reserve(id, req, now));
    assert u[id] == RowOf(Reserve(id, req, now));
    PendingKeptIff(u, steps, id);
  }

  const FIRST: Request := Request(1, 10, Proxmox, None, Some("a"), None, None, None)
  const SECOND: Request := Request(1, 10, Proxmox, None, Some("b"), None, None, None)

  /** A deploy of more than 30 minutes can lose its address to another deploy, and
      its success then confirms nothing. */
  lemma LongDeployLosesAddress()
    ensures var t := Exec(Exec(Exec(map[], Reserve(1, FIRST, 0)), Sweep(1801)), Reserve(2, SECOND, 1801));
      Exec(t, ConfirmJob("a", None, None, 1900)) == t && Holds(t, 2, 1, 10) && t[2].job == Some("b") && |t| == 1
  {
    var s0, s1, s2 := Reserve(1, FIRST, 0), Sweep(1801), Reserve(2, SECOND, 1801);
    var t0: Table := map[];
    var t1, t2 := Exec(t0, s0), Exec(Exec(t0, s0), s1);
    assert t1 == map[1 := RowOf(s0)];
    assert t2 == map[];
    assert Exec(t2, s2) == map[2 := RowOf(s2)];
  }

  /** Not a second earlier: a sweep after exactly 30 minutes still spares the row. */
  lemma ExpiryIsExact(t: Table, id: int, req: Request, now: int, at: int)
    requires Legal(t, Reserve(id, req, now)) && !Taken(t, req.pool, req.ip)
    ensures id in Exec(Exec(t, Reserve(id, req, now)), Sweep(at)) <==> at - now <= 30 * 60
  {
    ExecRow(Exec(t, Reserve(id, req, now)), Sweep(at), id);
  }

  // ------------------------------------------------- vanished and returning VMs

  /** The last refresh of a node decides. */
  lemma LastRefreshWins(t: Table, host: int, first: set<int>, last: set<int>)
    ensures Exec(Exec(t, Refresh(host, first)), Refresh(host, last)) == Exec(t, Refresh(host, last))
  {
    var u := Exec(t, Refresh(host, first));
    forall id | id in t ensures Becomes(Refresh(host, last), id, u[id]) == Becomes(Refresh(host, last), id, t[id]) { }
  }

  /** The rows of a node say what the cluster shows. */
  predicate Settled(t: Table, host: int, visible: set<int>)
  {
    forall id <- t ::
      Where(Refresh(host, visible), id, t[id]) ==> (t[id].status == Confirmed <==> t[id].vmid.value in visible)
  }

  /** VMs that vanish and come back leave the table as it was; no address is given away. */
  lemma VanishedReturns(t: Table, host: int, visible: set<int>, meanwhile: set<int>)
    requires Settled(t, host, visible)
    ensures Exec(Exec(t, Refresh(host, meanwhile)), Refresh(host, visible)) == t
  {
    LastRefreshWins(t, host, meanwhile, visible);
    forall id | id in t ensures Becomes(Refresh(host, visible), id, t[id]) == t[id] { }
  }
}
