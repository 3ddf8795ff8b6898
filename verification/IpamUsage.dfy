/** How many addresses of a pool are taken and free. */
module IpamUsage {
  import opened Numbers
  import opened Options
  import opened Sets
  import opened IpPools
  import opened Ipam

  /** The rows of a pool; all three states count as taken. */
  function RowsOf(t: Table, pool: int): set<int>
  {
    set id <- t | t[id].pool == pool
  }

  function ReservedSet(t: Table, pool: int): set<int>
  {
    set id <- t | t[id].pool == pool :: t[id].ip
  }

  function Addresses(t: Table, ids: set<int>): set<int>
    requires ids <= t.Keys
  {
    set id <- ids :: t[id].ip
  }

  lemma {:induction false} AddressesCount(t: Table, ids: set<int>, pool: int)
    requires Unique(t) && ids <= RowsOf(t, pool)
    ensures |Addresses(t, ids)| == |ids|
    decreases |ids|
  {
    if ids != {} {
      var id, rest := OneLess(ids);
      AddressesCount(t, rest, pool);
      assert ids == rest + {id};
      assert Addresses(t, ids) == Addresses(t, rest) + {t[id].ip};
    }
  }

  /** One row per address: the number of rows is the number of reserved addresses. */
  lemma RowsAreAddresses(t: Table, pool: int)
    requires Unique(t)
    ensures |RowsOf(t, pool)| == |ReservedSet(t, pool)|
  {
    AddressesCount(t, RowsOf(t, pool), pool);
    assert Addresses(t, RowsOf(t, pool)) == ReservedSet(t, pool);
  }

  lemma SubsetSize(a: set<int>, b: set<int>)
    requires a <= b
    ensures |a| <= |b| && (|a| == |b| ==> a == b)
  {
    assert b == a + (b - a);
    assert |b| == |a| + |b - a|;
  }

  lemma DifferenceSize(u: set<int>, r: set<int>)
    ensures |u - r| == |u| - |u * r|
  {
    assert u == (u - r) + (u * r);
  }

  /** `free` is `max(0, total - used)`. It is the number of usable addresses that
      are not reserved exactly if all reserved ones are usable, or all usable ones
      reserved. */
  lemma FreeExactIff(usable: set<int>, reserved: set<int>)
    ensures Max(0, |usable| - |reserved|) == |usable - reserved| <==> reserved <= usable || usable <= reserved
  {
    DifferenceSize(usable, reserved);
    SubsetSize(usable * reserved, reserved);
    SubsetSize(usable * reserved, usable);
    if reserved <= usable { assert usable * reserved == reserved; }
    if usable <= reserved { assert usable * reserved == usable; }
  }

  datatype Usage = Usage(total: nat, used: nat, free: nat)

  /** `pool_usage` */
  method PoolUsage(db: Allocations, p: Pool, now: int) returns (u: Usage)
    requires db.Valid()
    modifies db`table
    ensures db.Valid() && db.table == Exec(old(db.table), Sweep(now))
    ensures u.total == |UsableSet(p)| && u.used == |ReservedSet(db.table, p.id)|
    ensures u.free == |UsableSet(p) - ReservedSet(db.table, p.id)|
       <==> ReservedSet(db.table, p.id) <= UsableSet(p) || UsableSet(p) <= ReservedSet(db.table, p.id)
    ensures ReservedSet(db.table, p.id) <= UsableSet(p) ==> u.used <= u.total && u.free == u.total - u.used
    // rows in all three states are in use
    ensures u.used == |set id <- db.table | db.table[id].pool == p.id|
  {
    var count := db.Execute(Sweep(now));
    var rows := RowsOf(db.table, p.id);
    var total := PoolTotalHosts(p);
    u := Usage(total, |rows|, Max(0, total - |rows|));
    RowsAreAddresses(db.table, p.id);
    FreeExactIff(UsableSet(p), ReservedSet(db.table, p.id));
    if ReservedSet(db.table, p.id) <= UsableSet(p) { SubsetSize(ReservedSet(db.table, p.id), UsableSet(p)); }
  }

  /** `reserved_ips`: nothing counts while IPAM is switched off. */
  method ReservedIps(db: Allocations, enabled: bool, pool: int, now: int) returns (ips: set<int>)
    requires db.Valid()
    modifies db`table
    ensures db.Valid()
    ensures enabled ==> db.table == Exec(old(db.table), Sweep(now)) && ips == ReservedSet(db.table, pool)
    ensures !enabled ==> db.table == old(db.table) && ips == {}
    ensures enabled ==>
      forall ip :: ip in ips <==> exists id <- db.table :: db.table[id].pool == pool && db.table[id].ip == ip
  {
    if !enabled {
      return {};
    }
    var count := db.Execute(Sweep(now));
    ips := set id <- db.table | db.table[id].pool == pool :: db.table[id].ip;
  }

  const SMALL: Pool := Pool(1, 0, 30, Some(1), None, None, Bridge, "vmbr0", None)

  /** A reservation of the gateway is accepted and makes `free` too small: of the
      one usable address none is said to be free. */
  lemma GatewayReservationMiscounts()
    ensures var reserved := {1};
      Contains(SMALL, 1) && UsableSet(SMALL) == {2} && Max(0, 1 - |reserved|) == 0 && UsableSet(SMALL) - reserved == {2}
  {
    assert Pow2(2) == 4;
    assert UsableSet(SMALL) == {2} by {
      forall ip ensures ip in UsableSet(SMALL) <==> ip == 2 { assert ip in UsableSet(SMALL) <==> Usable(SMALL, ip); }
    }
  }
}
