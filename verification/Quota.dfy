/** Pool quotas: what a pool uses, and the checks before one VM or several VMs are added. */
module Quota {
  import opened Options

  /** Resources of a member as the cluster cache knows them. */
  datatype Resources = Resources(cores: int, ram: int, disk: int, template: bool)

  /** A member that is not in the cache yet has no resources. */
  type Member = Option<Resources>

  datatype Usage = Usage(vms: int, cores: int, ram: int, disk: int)

  /** A limit of zero or less is no limit. */
  datatype Limits = Limits(vms: int, cores: int, ram: int, disk: int)

  datatype Request = Request(cores: int, ram: int, disk: int)

  function Plus(u: Usage, x: Usage): Usage
  {
    Usage(u.vms + x.vms, u.cores + x.cores, u.ram + x.ram, u.disk + x.disk)
  }

  const ZERO: Usage := Usage(0, 0, 0, 0)

  /** What one member counts for: templates nothing, unknown ones a VM without resources. */
  function Share(m: Member): Usage
  {
    if m == None then Usage(1, 0, 0, 0)
    else if m.value.template then ZERO
    else Usage(1, m.value.cores, m.value.ram, m.value.disk)
  }

  function Vms(m: Member): int { Share(m).vms }

  function Cores(m: Member): int { Share(m).cores }

  function Ram(m: Member): int { Share(m).ram }

  function Disk(m: Member): int { Share(m).disk }

  function SumOf(f: Member -> int, members: seq<Member>): int
  {
    if members == [] then 0 else SumOf(f, members[..|members| - 1]) + f(members[|members| - 1])
  }

  function UsageOf(members: seq<Member>): Usage
  {
    Usage(SumOf(Vms, members), SumOf(Cores, members), SumOf(Ram, members), SumOf(Disk, members))
  }

  lemma UsageSnoc(members: seq<Member>, m: Member)
    ensures UsageOf(members + [m]) == Plus(UsageOf(members), Share(m))
  {
    assert (members + [m])[..|members|] == members;
  }

  /** `_calculate_usage` */
  method CalculateUsage(members: seq<Member>) returns (u: Usage, templates: nat)
    ensures u == UsageOf(members)
    ensures u.vms + templates == |members|
  {
    var vms, cores, ram, disk := 0, 0, 0, 0;
    templates := 0;
    for i := 0 to |members|
      invariant Usage(vms, cores, ram, disk) == UsageOf(members[..i])
      invariant vms + templates == i
    {
      var res := members[i];
      assert members[..i + 1] == members[..i] + [res];
      UsageSnoc(members[..i], res);
      if res == None {
        vms := vms + 1;
        continue;
      }
      if res.value.template {
        templates := templates + 1;
      } else {
        vms, cores, ram, disk := vms + 1, cores + res.value.cores, ram + res.value.ram, disk + res.value.disk;
      }
    }
    assert members[..|members|] == members;
    u := Usage(vms, cores, ram, disk);
  }

  /** What one member adds, wherever it stands: a template nothing, any other member a
      VM with the resources that the cache knows. */
  lemma {:induction false} MemberCounts(members: seq<Member>, i: nat)
    requires i < |members|
    ensures UsageOf(members) == Plus(UsageOf(members[..i] + members[i + 1..]),
      match members[i]
      case None => Usage(1, 0, 0, 0)
      case Some(r) => if r.template then Usage(0, 0, 0, 0) else Usage(1, r.cores, r.ram, r.disk))
    decreases |members|
  {
    var n := |members| - 1;
    assert members == members[..n] + [members[n]];
    UsageSnoc(members[..n], members[n]);
    if i < n {
      MemberCounts(members[..n], i);
      var without := members[..n][..i] + members[..n][i + 1..];
      UsageSnoc(without, members[n]);
      assert members[..i] + members[i + 1..] == without + [members[n]];
    } else {
      assert members[..i] + members[i + 1..] == members[..n];
    }
  }

  predicate Over(limit: int, used: int)
  {
    limit > 0 && used > limit
  }

  predicate Fits(l: Limits, u: Usage)
  {
    !Over(l.vms, u.vms) && !Over(l.cores, u.cores) && !Over(l.ram, u.ram) && !Over(l.disk, u.disk)
  }

  /** Every limit that is set can still hold the use of the members and `x` more. */
  predicate Room(l: Limits, members: seq<Member>, x: Usage)
  {
    var u := UsageOf(members);
    && (l.vms <= 0 || u.vms + x.vms <= l.vms)
    && (l.cores <= 0 || u.cores + x.cores <= l.cores)
    && (l.ram <= 0 || u.ram + x.ram <= l.ram)
    && (l.disk <= 0 || u.disk + x.disk <= l.disk)
  }

  lemma RoomIff(l: Limits, members: seq<Member>, x: Usage)
    ensures Fits(l, Plus(UsageOf(members), x)) <==> Room(l, members, x)
  {
  }

  /** The list names exactly the limits that would be passed. */
  predicate Lists(exceeded: seq<string>, l: Option<Limits>, u: Usage)
  {
    if l == None then exceeded == []
    else
      && ("vm_count" in exceeded <==> l.value.vms > 0 && u.vms > l.value.vms)
      && ("cpu_cores" in exceeded <==> l.value.cores > 0 && u.cores > l.value.cores)
      && ("ram_mb" in exceeded <==> l.value.ram > 0 && u.ram > l.value.ram)
      && ("disk_gb" in exceeded <==> l.value.disk > 0 && u.disk > l.value.disk)
  }

  /** The common part of the checks: no pool row, no limit. */
  method CheckQuota(l: Option<Limits>, members: seq<Member>, extra: Usage)
    returns (allowed: bool, exceeded: seq<string>)
    ensures allowed <==> l == None || Room(l.value, members, extra)
    ensures Lists(exceeded, l, Plus(UsageOf(members), extra))
  {
    exceeded := [];
    if l == None {
      return true, exceeded;
    }
    var usage, templates := CalculateUsage(members);
    if l.value.vms > 0 && usage.vms + extra.vms > l.value.vms {
      exceeded := exceeded + ["vm_count"];
    }
    if l.value.cores > 0 && usage.cores + extra.cores > l.value.cores {
      exceeded := exceeded + ["cpu_cores"];
    }
    if l.value.ram > 0 && usage.ram + extra.ram > l.value.ram {
      exceeded := exceeded + ["ram_mb"];
    }
    if l.value.disk > 0 && usage.disk + extra.disk > l.value.disk {
      exceeded := exceeded + ["disk_gb"];
    }
    allowed := |exceeded| == 0;
  }

  function AsUsage(r: Request): Usage
  {
    Usage(1, r.cores, r.ram, r.disk)
  }

  function Total(requests: seq<Request>): Usage
  {
    if requests == [] then ZERO else Plus(AsUsage(requests[0]), Total(requests[1..]))
  }

  predicate AllowedSingly(l: Limits, members: seq<Member>, r: Request)
  {
    Fits(l, Plus(UsageOf(members), AsUsage(r)))
  }

  predicate AllowedInBulk(l: Limits, members: seq<Member>, requests: seq<Request>)
  {
    Fits(l, Plus(UsageOf(members), Total(requests)))
  }

  /** `check_pool_quota` */
  method CheckPoolQuota(l: Option<Limits>, members: seq<Member>, r: Request)
    returns (allowed: bool, exceeded: seq<string>)
    ensures allowed <==> l == None || Room(l.value, members, Usage(1, r.cores, r.ram, r.disk))
    ensures allowed <==> l == None || AllowedSingly(l.value, members, r)
    ensures Lists(exceeded, l, Plus(UsageOf(members), AsUsage(r)))
  {
    allowed, exceeded := CheckQuota(l, members, AsUsage(r));
    if l.Some? { RoomIff(l.value, members, AsUsage(r)); }
  }

  /** One entry of a stack: `count` VMs or containers alike. */
  datatype Entry = Entry(count: nat, cores: int, memory: int, disk: int, rootfs: int, lxc: bool)

  function RequestOf(e: Entry): Request
  {
    Request(e.cores, e.memory, if e.lxc then e.rootfs else e.disk)
  }

  function Copies(r: Request, n: nat): seq<Request>
  {
    if n == 0 then [] else [r] + Copies(r, n - 1)
  }

  /** One request for each VM of a stack. */
  function Expanded(entries: seq<Entry>): seq<Request>
  {
    if entries == [] then []
    else
      var e := entries[|entries| - 1];
      Expanded(entries[..|entries| - 1]) + Copies(RequestOf(e), e.count)
  }

  lemma ConsTotal(r: Request, rest: seq<Request>)
    ensures Total([r] + rest) == Plus(AsUsage(r), Total(rest))
  {
    var all := [r] + rest;
    assert all[0] == r && all[1..] == rest;
  }

  lemma {:induction false} TotalAppend(a: seq<Request>, b: seq<Request>)
    ensures Total(a + b) == Plus(Total(a), Total(b))
  {
    if a == [] {
      assert a + b == b;
    } else {
      ConsTotal(a[0], a[1..] + b);
      assert a + b == [a[0]] + (a[1..] + b);
      TotalAppend(a[1..], b);
      PlusAssoc(AsUsage(a[0]), Total(a[1..]), Total(b));
    }
  }

  lemma {:induction false} TotalOfCopies(r: Request, n: nat)
    ensures Total(Copies(r, n)) == Usage(n, r.cores * n, r.ram * n, r.disk * n)
  {
    if n > 0 {
      TotalOfCopies(r, n - 1);
      ConsTotal(r, Copies(r, n - 1));
    }
  }

  /** The number of VMs of an entry, each with its cores, memory and disk, for a
      container the root file system. */
  function EntryUse(e: Entry): Usage
  {
    Usage(e.count, e.cores * e.count, e.memory * e.count, (if e.lxc then e.rootfs else e.disk) * e.count)
  }

  lemma ExpandedSnoc(entries: seq<Entry>, i: nat)
    requires i < |entries|
    ensures Total(Expanded(entries[..i + 1])) == Plus(Total(Expanded(entries[..i])), EntryUse(entries[i]))
  {
    var e := entries[i];
    assert entries[..i + 1][..i] == entries[..i] && entries[..i + 1][i] == e;
    TotalAppend(Expanded(entries[..i]), Copies(RequestOf(e), e.count));
    TotalOfCopies(RequestOf(e), e.count);
  }

  lemma PlusSwap(all: Usage, front: Usage, without: Usage, less: Usage, x: Usage, y: Usage)
    requires all == Plus(front, y) && front == Plus(less, x) && without == Plus(less, y)
    ensures all == Plus(without, x)
  {
  }

  /** What one entry adds to the totals of a stack, wherever it stands. */
  lemma {:induction false} EntryCounts(entries: seq<Entry>, i: nat)
    requires i < |entries|
    ensures Total(Expanded(entries)) == Plus(Total(Expanded(entries[..i] + entries[i + 1..])), EntryUse(entries[i]))
    decreases |entries|
  {
    var n := |entries| - 1;
    LastEntry(entries);
    if i < n {
      EntryCounts(entries[..n], i);
      LeaveOut(entries, i);
      var without := entries[..i] + entries[i + 1..];
      LastEntry(without);
      PlusSwap(Total(Expanded(entries)), Total(Expanded(entries[..n])), Total(Expanded(without)),
               Total(Expanded(without[..n - 1])), EntryUse(entries[i]), EntryUse(entries[n]));
    } else {
      assert entries[..i] + entries[i + 1..] == entries[..n];
    }
  }

  lemma LastEntry(entries: seq<Entry>)
    requires entries != []
    ensures var n := |entries| - 1;
      Total(Expanded(entries)) == Plus(Total(Expanded(entries[..n])), EntryUse(entries[n]))
  {
    ExpandedSnoc(entries, |entries| - 1);
    assert entries[..|entries|] == entries;
  }

  lemma LeaveOut(entries: seq<Entry>, i: nat)
    requires i < |entries| - 1
    ensures var n, without := |entries| - 1, entries[..i] + entries[i + 1..];
      without[..n - 1] == entries[..n][..i] + entries[..n][i + 1..] && without[..n] == without
      && without[n - 1] == entries[n] && |without| == n && entries[..n][i] == entries[i]
  {
  }

  /** `_resource_totals` of a stack */
  method ResourceTotals(entries: seq<Entry>) returns (total: Usage)
    ensures total == Total(Expanded(entries))
  {
    var count, cores, ram, disk := 0, 0, 0, 0;
    for i := 0 to |entries|
      invariant Usage(count, cores, ram, disk) == Total(Expanded(entries[..i]))
    {
      var r := entries[i];
      ExpandedSnoc(entries, i);
      count := count + r.count;
      cores := cores + r.cores * r.count;
      ram := ram + r.memory * r.count;
      disk := disk + (if r.lxc then r.rootfs else r.disk) * r.count;
    }
    assert entries[..|entries|] == entries;
    total := Usage(count, cores, ram, disk);
  }

  /** `check_pool_quota_bulk`, on the totals of a stack */
  method CheckPoolQuotaBulk(l: Option<Limits>, members: seq<Member>, entries: seq<Entry>)
    returns (allowed: bool, exceeded: seq<string>)
    ensures allowed <==> l == None || Room(l.value, members, Total(Expanded(entries)))
    ensures allowed <==> l == None || AllowedInBulk(l.value, members, Expanded(entries))
    ensures Lists(exceeded, l, Plus(UsageOf(members), Total(Expanded(entries))))
  {
    var total := ResourceTotals(entries);
    allowed, exceeded := CheckQuota(l, members, total);
    if l.Some? { RoomIff(l.value, members, total); }
  }

  /** The member an admitted request becomes, once the cache knows it. */
  function Admitted(r: Request): Member
  {
    Some(Resources(r.cores, r.ram, r.disk, false))
  }

  /** Checking one request after the other, each admitted one becoming a member,
      never refuses. */
  predicate NeverRefused(l: Limits, members: seq<Member>, requests: seq<Request>)
    decreases requests
  {
    requests != [] ==>
      AllowedSingly(l, members, requests[0]) && NeverRefused(l, members + [Admitted(requests[0])], requests[1..])
  }

  predicate Sensible(requests: seq<Request>)
  {
    forall r <- requests :: r.cores >= 0 && r.ram >= 0 && r.disk >= 0
  }

  lemma {:induction false} TotalGrows(requests: seq<Request>)
    requires Sensible(requests)
    ensures var t := Total(requests); t.vms >= 0 && t.cores >= 0 && t.ram >= 0 && t.disk >= 0
  {
    if requests != [] {
      assert requests[0] in requests;
      TotalGrows(requests[1..]);
    }
  }

  lemma FitsLess(l: Limits, u: Usage, x: Usage)
    requires x.vms >= 0 && x.cores >= 0 && x.ram >= 0 && x.disk >= 0 && Fits(l, Plus(u, x))
    ensures Fits(l, u)
  {
  }

  /** The bulk check allows a non-empty request exactly if checking singly never refuses. */
  lemma {:induction false} BulkIffSingly(l: Limits, members: seq<Member>, requests: seq<Request>)
    requires requests != [] && Sensible(requests)
    ensures AllowedInBulk(l, members, requests) <==> NeverRefused(l, members, requests)
    decreases requests
  {
    var first, rest, grown := requests[0], requests[1..], members + [Admitted(requests[0])];
    UsageSnoc(members, Admitted(first));
    assert Plus(UsageOf(members), Total(requests)) == Plus(UsageOf(grown), Total(rest));
    TotalGrows(rest);
    if rest == [] {
      assert Plus(UsageOf(grown), Total(rest)) == UsageOf(grown);
    } else {
      BulkIffSingly(l, grown, rest);
      if AllowedInBulk(l, members, requests) { FitsLess(l, UsageOf(grown), Total(rest)); }
    }
  }

  lemma {:induction false} TotalWithout(requests: seq<Request>, i: nat)
    requires i < |requests|
    ensures Total(requests) == Plus(AsUsage(requests[i]), Total(requests[..i] + requests[i + 1..]))
  {
    var without := requests[..i] + requests[i + 1..];
    if i == 0 {
      assert without == requests[1..];
    } else {
      TotalWithout(requests[1..], i - 1);
      assert requests[1..][..i - 1] + requests[1..][i..] == without[1..];
    }
  }

  lemma {:induction false} TotalOfPermutation(a: seq<Request>, b: seq<Request>)
    requires multiset(a) == multiset(b)
    ensures Total(a) == Total(b)
    decreases a
  {
    if a == [] {
      assert |b| == |multiset(b)| == 0;
    } else {
      assert a[0] in multiset(b);
      var i :| 0 <= i < |b| && b[i] == a[0];
      var without := b[..i] + b[i + 1..];
      TotalWithout(b, i);
      assert b == b[..i] + [b[i]] + b[i + 1..];
      assert a == [a[0]] + a[1..];
      assert multiset(a[1..]) == multiset(a) - multiset{a[0]};
      assert multiset(without) == multiset(b) - multiset{a[0]};
      TotalOfPermutation(a[1..], without);
    }
  }

  /** Hence the order of the single checks does not matter. */
  lemma AnyOrder(l: Limits, members: seq<Member>, a: seq<Request>, b: seq<Request>)
    requires a != [] && Sensible(a) && multiset(a) == multiset(b)
    ensures NeverRefused(l, members, a) <==> NeverRefused(l, members, b)
    ensures AllowedInBulk(l, members, a) <==> NeverRefused(l, members, b)
  {
    TotalOfPermutation(a, b);
    assert a[0] in multiset(b);
    forall r | r in b ensures r in a { assert r in multiset(a); }
    BulkIffSingly(l, members, a);
    BulkIffSingly(l, members, b);
  }

  /** Nothing requested: single checks have nothing to refuse, but the bulk check
      allows it only if the pool is within its limits already. */
  lemma EmptyBulkIff(l: Limits, members: seq<Member>)
    ensures NeverRefused(l, members, [])
    ensures AllowedInBulk(l, members, []) <==> Fits(l, UsageOf(members))
  {
    assert Plus(UsageOf(members), Total([])) == UsageOf(members);
  }

  /** Single checks from a usage `u`, while the cache may not know the new members
      yet: an admitted request then adds what such a member counts for. */
  predicate NeverRefusedFrom(l: Limits, u: Usage, requests: seq<Request>, cached: seq<bool>)
    requires |cached| == |requests|
    decreases requests
  {
    requests != [] ==>
      Fits(l, Plus(u, AsUsage(requests[0])))
      && NeverRefusedFrom(l, Plus(u, Share(if cached[0] then Admitted(requests[0]) else None)),
                          requests[1..], cached[1..])
  }

  lemma {:induction false} CachedIsNeverRefused(l: Limits, members: seq<Member>, requests: seq<Request>,
                                               cached: seq<bool>)
    requires |cached| == |requests| && forall i :: 0 <= i < |cached| ==> cached[i]
    ensures NeverRefusedFrom(l, UsageOf(members), requests, cached) <==> NeverRefused(l, members, requests)
    decreases requests
  {
    if requests != [] {
      UsageSnoc(members, Admitted(requests[0]));
      CachedIsNeverRefused(l, members + [Admitted(requests[0])], requests[1..], cached[1..]);
    }
  }

  predicate NoMore(u: Usage, v: Usage)
  {
    u.vms <= v.vms && u.cores <= v.cores && u.ram <= v.ram && u.disk <= v.disk
  }

  /** What passes with a complete cache passes with any. */
  lemma {:induction false} LateCacheAdmitsMore(l: Limits, u: Usage, v: Usage, requests: seq<Request>, cached: seq<bool>,
                                               all: seq<bool>)
    requires |cached| == |all| == |requests| && Sensible(requests) && NoMore(u, v)
    requires (forall i :: 0 <= i < |all| ==> all[i]) && NeverRefusedFrom(l, v, requests, all)
    ensures NeverRefusedFrom(l, u, requests, cached)
    decreases requests
  {
    if requests != [] {
      var r := requests[0];
      assert r in requests;
      var m: Member := if cached[0] then Admitted(r) else None;
      LateCacheAdmitsMore(l, Plus(u, Share(m)), Plus(v, Share(Admitted(r))), requests[1..], cached[1..], all[1..]);
    }
  }

  /** What the first `i` admitted requests count for, as far as the cache knows them. */
  function Known(requests: seq<Request>, cached: seq<bool>, i: nat): Usage
    requires i <= |requests| == |cached|
    decreases requests
  {
    if i == 0 then ZERO
    else Plus(Share(if cached[0] then Admitted(requests[0]) else None), Known(requests[1..], cached[1..], i - 1))
  }

  /** Request `i` on top of what the cache knows of the ones before. */
  predicate FitsKnown(l: Limits, u: Usage, requests: seq<Request>, cached: seq<bool>, i: nat)
    requires i < |requests| == |cached|
  {
    Fits(l, Plus(Plus(u, Known(requests, cached, i)), AsUsage(requests[i])))
  }

  lemma PlusAssoc(a: Usage, b: Usage, c: Usage)
    ensures Plus(Plus(a, b), c) == Plus(a, Plus(b, c))
    ensures Plus(a, ZERO) == a
  {
  }

  lemma KnownNext(l: Limits, u: Usage, requests: seq<Request>, cached: seq<bool>, i: nat)
    requires i + 1 < |requests| == |cached|
    ensures var m: Member := if cached[0] then Admitted(requests[0]) else None;
      FitsKnown(l, Plus(u, Share(m)), requests[1..], cached[1..], i) <==> FitsKnown(l, u, requests, cached, i + 1)
  {
    var m: Member := if cached[0] then Admitted(requests[0]) else None;
    PlusAssoc(u, Share(m), Known(requests[1..], cached[1..], i));
  }

  /** Whatever the cache knows meanwhile: single checks never refuse exactly if every
      request fits on top of what is known of the ones before it. */
  lemma {:induction false} LateCacheIff(l: Limits, u: Usage, requests: seq<Request>, cached: seq<bool>)
    requires |cached| == |requests|
    ensures NeverRefusedFrom(l, u, requests, cached) <==>
      forall i: nat :: i < |requests| ==> FitsKnown(l, u, requests, cached, i)
    decreases requests
  {
    if requests != [] {
      var v := Plus(u, Share(if cached[0] then Admitted(requests[0]) else None));
      LateCacheIff(l, v, requests[1..], cached[1..]);
      PlusAssoc(u, ZERO, ZERO);
      assert FitsKnown(l, u, requests, cached, 0) <==> Fits(l, Plus(u, AsUsage(requests[0])));
      forall i: nat | i < |requests| - 1
        ensures FitsKnown(l, v, requests[1..], cached[1..], i) <==> FitsKnown(l, u, requests, cached, i + 1)
      {
        KnownNext(l, u, requests, cached, i);
      }
      forall i: nat | 0 < i < |requests|
        ensures FitsKnown(l, u, requests, cached, i) <==> FitsKnown(l, v, requests[1..], cached[1..], i - 1)
      {
        KnownNext(l, u, requests, cached, i - 1);
      }
    }
  }

  /** A request on top of `i` VMs without resources. */
  predicate FitsAfter(l: Limits, u: Usage, i: int, r: Request)
  {
    Fits(l, Plus(u, Usage(i + 1, r.cores, r.ram, r.disk)))
  }

  /** While the cache knows none of the new members, every request is checked as if
      the ones before it had no resources. */
  lemma {:induction false} UncachedIff(l: Limits, u: Usage, requests: seq<Request>, cached: seq<bool>)
    requires |cached| == |requests| && forall i :: 0 <= i < |cached| ==> !cached[i]
    ensures NeverRefusedFrom(l, u, requests, cached) <==>
      forall i :: 0 <= i < |requests| ==> FitsAfter(l, u, i, requests[i])
    decreases requests
  {
    if requests != [] {
      var v, rest := Plus(u, Share(None)), requests[1..];
      UncachedIff(l, v, rest, cached[1..]);
      forall i | 0 <= i < |rest| ensures FitsAfter(l, v, i, rest[i]) <==> FitsAfter(l, u, i + 1, requests[i + 1]) {
        FitsAfterOneMore(l, u, i, rest[i]);
      }
      forall i | 0 < i < |requests| ensures FitsAfter(l, u, i, requests[i]) <==> FitsAfter(l, v, i - 1, rest[i - 1]) {
        FitsAfterOneMore(l, u, i - 1, rest[i - 1]);
      }
      assert FitsAfter(l, u, 0, requests[0]) <==> Fits(l, Plus(u, AsUsage(requests[0])));
    }
  }

  lemma FitsAfterOneMore(l: Limits, u: Usage, i: int, r: Request)
    ensures FitsAfter(l, Plus(u, Share(None)), i, r) <==> FitsAfter(l, u, i + 1, r)
  {
  }

  lemma TotalOfTwo(two: seq<Request>)
    requires |two| == 2
    ensures Total(two).cores == two[0].cores + two[1].cores
  {
    var rest := two[1..];
    assert Total(two) == Plus(AsUsage(two[0]), Total(rest));
    assert Total(rest) == Plus(AsUsage(rest[0]), Total(rest[1..]));
    assert Total(rest[1..]) == ZERO;
  }

  predicate CoresOnly(l: Limits, cores: int)
  {
    l.vms == 0 && l.ram == 0 && l.disk == 0 && l.cores == cores
  }

  lemma CoresFit(l: Limits, cores: int, u: Usage)
    requires CoresOnly(l, cores)
    ensures Fits(l, u) <==> cores <= 0 || u.cores <= cores
  {
  }

  lemma UncachedPass(l: Limits, u: Usage, requests: seq<Request>, cached: seq<bool>)
    requires |cached| == |requests| && forall i :: 0 <= i < |cached| ==> !cached[i]
    requires forall i :: 0 <= i < |requests| ==> FitsAfter(l, u, i, requests[i])
    ensures NeverRefusedFrom(l, u, requests, cached)
  {
    UncachedIff(l, u, requests, cached);
  }

  lemma SixFits(l: Limits, u: Usage, i: int, r: Request)
    requires CoresOnly(l, 10) && u == ZERO && r.cores == 6
    ensures FitsAfter(l, u, i, r)
  {
    CoresFit(l, 10, Plus(u, Usage(i + 1, r.cores, r.ram, r.disk)));
  }

  lemma SixAndSixInBulk(l: Limits, u: Usage, two: seq<Request>)
    requires CoresOnly(l, 10) && u == ZERO && |two| == 2 && two[0].cores == 6 && two[1].cores == 6
    ensures !Fits(l, Plus(u, Total(two)))
  {
    TotalOfTwo(two);
    CoresFit(l, 10, Plus(u, Total(two)));
  }

  /** So single checks can let through what the bulk check refuses: two VMs of six
      cores against a limit of ten. */
  lemma UncachedOversubscribes(l: Limits, u: Usage, two: seq<Request>, cached: seq<bool>)
    requires CoresOnly(l, 10) && u == ZERO && |two| == |cached| == 2 && !cached[0] && !cached[1]
    requires two[0].cores == 6 && two[1].cores == 6
    ensures NeverRefusedFrom(l, u, two, cached) && !Fits(l, Plus(u, Total(two)))
  {
    forall i | 0 <= i < |two| ensures FitsAfter(l, u, i, two[i]) { SixFits(l, u, i, two[i]); }
    UncachedPass(l, u, two, cached);
    SixAndSixInBulk(l, u, two);
  }
}
