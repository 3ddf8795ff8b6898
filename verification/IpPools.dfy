/** Address pools: which addresses a pool can hand out, how many they are, and
    which pool an address belongs to. IPv4 addresses are integers. */
module IpPools {
  import opened Numbers
  import opened Options

  type Prefix = n: nat | n <= 32

  datatype Kind = Bridge | Vnet

  /** `address`/`prefix` is the CIDR as entered, host bits included. */
  datatype Pool = Pool(id: int, address: nat, prefix: Prefix, gateway: Option<int>, lo: Option<int>, hi: Option<int>,
                       kind: Kind, network: string, node: Option<string>)

  function Pow2(n: nat): (r: nat)
    ensures r >= 1
  {
    if n == 0 then 1 else 2 * Pow2(n - 1)
  }

  function Size(p: Pool): nat { Pow2(32 - p.prefix) }

  function Rounded(a: nat, n: nat): (r: nat)
    requires n >= 1
    ensures r <= a < r + n
  {
    Product(a / n, n)
  }

  function Product(a: nat, b: nat): nat { a * b }

  /** The network address: the host bits are cleared. */
  function Net(p: Pool): nat { Rounded(p.address, Size(p)) }

  lemma RoundedToMultiple(a: nat, n: nat)
    requires n >= 1
    ensures exists q: nat :: Rounded(a, n) == Product(q, n)
  {
    var q: nat := a / n;
    assert Rounded(a, n) == Product(q, n);
  }

  lemma SizeHalves(p: Pool)
    ensures p.prefix == 32 ==> Size(p) == 1
    ensures p.prefix < 32 ==> Size(p) == 2 * Size(p.(prefix := p.prefix + 1))
  {
  }

  /** A network starts at a multiple of its size, which halves with each bit of prefix. */
  lemma NetworkAligned(p: Pool)
    ensures (exists q: nat :: Net(p) == Product(q, Size(p))) && Net(p) <= p.address <= Broadcast(p)
    ensures Size(p) == Broadcast(p) - Net(p) + 1
    ensures p.prefix == 32 ==> Size(p) == 1
    ensures p.prefix < 32 ==> Size(p) == 2 * Size(p.(prefix := p.prefix + 1))
  {
    RoundedToMultiple(p.address, Size(p));
    SizeHalves(p);
  }

  /** The broadcast address. */
  function Broadcast(p: Pool): nat { Net(p) + Size(p) - 1 }

  /** The host addresses of the network: all of them for prefixes 31 and 32. */
  function FirstHost(p: Pool): int { if p.prefix >= 31 then Net(p) else Net(p) + 1 }

  function LastHost(p: Pool): int { if p.prefix >= 31 then Broadcast(p) else Broadcast(p) - 1 }

  predicate InRange(p: Pool, ip: int)
  {
    (p.lo.Some? ==> p.lo.value <= ip) && (p.hi.Some? ==> ip <= p.hi.value)
  }

  predicate Usable(p: Pool, ip: int)
  {
    FirstHost(p) <= ip <= LastHost(p) && InRange(p, ip) && p.gateway != Some(ip)
  }

  function UsableBelow(p: Pool, bound: int): set<int>
  {
    set ip | FirstHost(p) <= ip < bound && Usable(p, ip)
  }

  function UsableSet(p: Pool): set<int>
  {
    UsableBelow(p, LastHost(p) + 1)
  }

  // ------------------------------------------------------------ counting hosts

  function Low(p: Pool): int
  {
    if p.lo.Some? then Max(FirstHost(p), p.lo.value) else FirstHost(p)
  }

  function High(p: Pool): int
  {
    if p.hi.Some? then Min(LastHost(p), p.hi.value) else LastHost(p)
  }

  /** The closed form: host range cut with the configured range, less the gateway. */
  function Total(p: Pool): int
  {
    Max(0, High(p) - Low(p) + 1)
    - (if p.gateway.Some? && Low(p) <= p.gateway.value <= High(p) then 1 else 0)
  }

  function Interval(lo: int, hi: int): set<int>
    decreases hi - lo
  {
    if lo > hi then {} else Interval(lo, hi - 1) + {hi}
  }

  lemma {:induction false} IntervalSize(lo: int, hi: int)
    ensures |Interval(lo, hi)| == Max(0, hi - lo + 1)
    ensures forall x :: x in Interval(lo, hi) <==> lo <= x <= hi
    decreases hi - lo
  {
    if lo <= hi { IntervalSize(lo, hi - 1); }
  }

  lemma UsableCount(p: Pool)
    ensures |UsableSet(p)| == Total(p)
  {
    IntervalSize(Low(p), High(p));
    UsableIsInterval(p);
  }

  lemma UsableIsInterval(p: Pool)
    ensures UsableSet(p)
         == Interval(Low(p), High(p)) - (if p.gateway.Some? then {p.gateway.value} else {})
  {
    IntervalSize(Low(p), High(p));
    forall ip
      ensures ip in UsableSet(p) <==> Low(p) <= ip <= High(p) && p.gateway != Some(ip)
    {
      assert ip in UsableSet(p) <==> Usable(p, ip);
    }
  }

  /** `_pool_total_hosts` counts exactly the usable addresses, which is the closed form. */
  method PoolTotalHosts(p: Pool) returns (count: nat)
    ensures count == Total(p) == |UsableSet(p)|
  {
    count := 0;
    var host := FirstHost(p);
    while host <= LastHost(p)
      invariant FirstHost(p) <= host <= Max(FirstHost(p), LastHost(p) + 1)
      invariant count == |UsableBelow(p, host)|
      decreases LastHost(p) + 1 - host
    {
      if p.lo.Some? && host < p.lo.value {
        assert UsableBelow(p, host + 1) == UsableBelow(p, host);
      } else if p.hi.Some? && host > p.hi.value {
        assert UsableBelow(p, host + 1) == UsableBelow(p, host);
      } else if p.gateway.Some? && host == p.gateway.value {
        assert UsableBelow(p, host + 1) == UsableBelow(p, host);
      } else {
        assert UsableBelow(p, host + 1) == UsableBelow(p, host) + {host};
        count := count + 1;
      }
      host := host + 1;
    }
    assert UsableBelow(p, host) == UsableSet(p);
    UsableCount(p);
  }

  // ------------------------------------------------------------ the pool of an address

  /** `_contains` of `find_pool_for_ip` */
  predicate Contains(p: Pool, ip: int)
  {
    Net(p) <= ip <= Broadcast(p) && InRange(p, ip)
  }

  /** A pool accepts more addresses than it counts: the gateway, and the network
      and broadcast addresses of prefixes up to 30. */
  lemma UncountedIff(p: Pool, ip: int)
    ensures ip in UsableSet(p) ==> Contains(p, ip)
    ensures Contains(p, ip) && ip !in UsableSet(p)
       <==> Contains(p, ip) && (p.gateway == Some(ip) || (p.prefix <= 30 && (ip == Net(p) || ip == Broadcast(p))))
  {
    assert ip in UsableSet(p) <==> Usable(p, ip);
  }

  predicate ExactBridge(p: Pool, ip: int, bridge: string, node: Option<string>)
  {
    Contains(p, ip) && p.kind == Bridge && p.network == bridge && (node == None || p.node == node)
  }

  predicate ExactVnet(p: Pool, ip: int, bridge: string)
  {
    Contains(p, ip) && p.kind == Vnet && p.network == bridge
  }

  /** The first pool of a list with a property. */
  function FirstOf(pools: seq<Pool>, f: Pool -> bool): Option<Pool>
  {
    if pools == [] then None else if f(pools[0]) then Some(pools[0]) else FirstOf(pools[1..], f)
  }

  lemma {:induction false} FirstOfIff(pools: seq<Pool>, f: Pool -> bool)
    ensures match FirstOf(pools, f)
      case None => forall p <- pools :: !f(p)
      case Some(p) => f(p) && exists i :: 0 <= i < |pools| && pools[i] == p && forall j :: 0 <= j < i ==> !f(pools[j])
  {
    if pools != [] && !f(pools[0]) {
      FirstOfIff(pools[1..], f);
      assert pools == [pools[0]] + pools[1..];
      var r := FirstOf(pools[1..], f);
      if r.Some? {
        var i :| 0 <= i < |pools[1..]| && pools[1..][i] == r.value && forall j :: 0 <= j < i ==> !f(pools[1..][j]);
        assert pools[i + 1] == r.value;
        forall j | 0 <= j < i + 1 ensures !f(pools[j]) {
          if j > 0 { assert pools[j] == pools[1..][j - 1]; }
        }
      }
    } else if pools != [] {
      assert pools[0] == FirstOf(pools, f).value;
    }
  }

  function Candidates(pools: seq<Pool>, ip: int): seq<Pool>
  {
    if pools == [] then []
    else if Contains(pools[0], ip) then [pools[0]] + Candidates(pools[1..], ip)
    else Candidates(pools[1..], ip)
  }

  lemma {:induction false} CandidatesSnoc(pools: seq<Pool>, p: Pool, ip: int)
    ensures Candidates(pools + [p], ip) == Candidates(pools, ip) + (if Contains(p, ip) then [p] else [])
  {
    if pools != [] {
      CandidatesSnoc(pools[1..], p, ip);
      assert (pools + [p])[1..] == pools[1..] + [p];
    }
  }

  /** Looking among the candidates is looking among all pools that contain the address. */
  lemma {:induction false} FirstCandidate(pools: seq<Pool>, ip: int, f: Pool -> bool)
    requires forall p :: f(p) ==> Contains(p, ip)
    ensures FirstOf(Candidates(pools, ip), f) == FirstOf(pools, f)
  {
    if pools != [] {
      FirstCandidate(pools[1..], ip, f);
    }
  }

  function Exact(ip: int, bridge: string, node: Option<string>): Pool -> bool
  {
    (p: Pool) => ExactBridge(p, ip, bridge, node)
  }

  function OnVnet(ip: int, bridge: string): Pool -> bool
  {
    (p: Pool) => ExactVnet(p, ip, bridge)
  }

  function Holding(ip: int): Pool -> bool
  {
    (p: Pool) => Contains(p, ip)
  }

  /** Bridge and node first, then VNet, then any pool; without a bridge any pool. */
  function PoolFor(pools: seq<Pool>, ip: int, bridge: string, node: Option<string>): Option<Pool>
  {
    var onBridge, onVnet := FirstOf(pools, Exact(ip, bridge, node)), FirstOf(pools, OnVnet(ip, bridge));
    if bridge != "" && onBridge.Some? then onBridge
    else if bridge != "" && onVnet.Some? then onVnet
    else FirstOf(pools, Holding(ip))
  }

  lemma {:induction false} FirstTail(pools: seq<Pool>, f: Pool -> bool, i: nat)
    requires i < |pools|
    ensures FirstOf(pools[i..], f) == if f(pools[i]) then Some(pools[i]) else FirstOf(pools[i + 1..], f)
  {
    assert pools[i..][1..] == pools[i + 1..];
  }

  /** `find_pool_for_ip`, for an address that parses as IPv4 */
  method FindPoolForIp(pools: seq<Pool>, ip: int, bridge: string, node: Option<string>) returns (r: Option<Pool>)
    ensures r == PoolFor(pools, ip, bridge, node)
    ensures if r == None then forall p <- pools :: Rank(p, ip, bridge, node) == 0
            else exists i: nat :: BestAt(pools, i, ip, bridge, node) && r == Some(pools[i])
  {
    PoolForIsBest(pools, ip, bridge, node);
    var candidates := [];
    for i := 0 to |pools|
      invariant candidates == Candidates(pools[..i], ip)
    {
      assert pools[..i + 1] == pools[..i] + [pools[i]];
      CandidatesSnoc(pools[..i], pools[i], ip);
      if Contains(pools[i], ip) {
        candidates := candidates + [pools[i]];
      }
    }
    assert pools[..|pools|] == pools;
    FirstCandidate(pools, ip, Exact(ip, bridge, node));
    FirstCandidate(pools, ip, OnVnet(ip, bridge));
    FirstCandidate(pools, ip, Holding(ip));
    CandidatesHold(pools, ip);
    if candidates == [] {
      assert FirstOf(candidates, Exact(ip, bridge, node)) == FirstOf(candidates, OnVnet(ip, bridge)) == None;
      return None;
    }
    if bridge != "" {
      var onBridge := Search(candidates, Exact(ip, bridge, node));
      if onBridge.Some? {
        return onBridge;
      }
      var onVnet := Search(candidates, OnVnet(ip, bridge));
      if onVnet.Some? {
        return onVnet;
      }
    }
    assert candidates[0] in candidates;
    return Some(candidates[0]);
  }

  lemma {:induction false} CandidatesHold(pools: seq<Pool>, ip: int)
    ensures forall p <- Candidates(pools, ip) :: Contains(p, ip)
  {
    if pools != [] { CandidatesHold(pools[1..], ip); }
  }

  method Search(pools: seq<Pool>, f: Pool -> bool) returns (r: Option<Pool>)
    ensures r == FirstOf(pools, f)
  {
    assert pools[0..] == pools;
    for i := 0 to |pools|
      invariant FirstOf(pools[i..], f) == FirstOf(pools, f)
    {
      FirstTail(pools, f, i);
      if f(pools[i]) {
        return Some(pools[i]);
      }
    }
    return None;
  }

  /** How well a pool fits: 0 if the address is not in it, 3 on the named bridge of the
      node asked for, or of any node if none is, 2 on the named VNet, 1 otherwise. */
  function Rank(p: Pool, ip: int, bridge: string, node: Option<string>): nat
  {
    if ip < Net(p) || ip >= Net(p) + Size(p) then 0
    else if (p.lo.Some? && ip < p.lo.value) || (p.hi.Some? && ip > p.hi.value) then 0
    else if bridge == "" || p.network != bridge then 1
    else if p.kind == Vnet then 2
    else if node == None || node == p.node then 3
    else 1
  }

  /** Pool `i` is the first of those that fit best. */
  predicate BestAt(pools: seq<Pool>, i: nat, ip: int, bridge: string, node: Option<string>)
  {
    i < |pools| && Rank(pools[i], ip, bridge, node) > 0
    && forall j: nat :: j < |pools| ==>
         Rank(pools[j], ip, bridge, node) <= Rank(pools[i], ip, bridge, node)
         && (j < i ==> Rank(pools[j], ip, bridge, node) < Rank(pools[i], ip, bridge, node))
  }

  lemma {:induction false} FirstOfAt(pools: seq<Pool>, f: Pool -> bool) returns (i: nat)
    ensures if FirstOf(pools, f) == None then forall j: nat :: j < |pools| ==> !f(pools[j])
            else i < |pools| && FirstOf(pools, f) == Some(pools[i]) && f(pools[i])
                 && forall j: nat :: j < i ==> !f(pools[j])
  {
    FirstOfIff(pools, f);
    i := 0;
    if FirstOf(pools, f).Some? {
      i :| 0 <= i < |pools| && pools[i] == FirstOf(pools, f).value && forall j :: 0 <= j < i ==> !f(pools[j]);
    } else {
      forall j: nat | j < |pools| ensures !f(pools[j]) { assert pools[j] in pools; }
    }
  }

  lemma RankOf(p: Pool, ip: int, bridge: string, node: Option<string>)
    ensures Holding(ip)(p) <==> Rank(p, ip, bridge, node) > 0
    ensures bridge != "" ==> (Exact(ip, bridge, node)(p) <==> Rank(p, ip, bridge, node) == 3)
    ensures bridge != "" ==> (OnVnet(ip, bridge)(p) <==> Rank(p, ip, bridge, node) == 2)
    ensures bridge == "" ==> Rank(p, ip, bridge, node) <= 1
    ensures Rank(p, ip, bridge, node) <= 3
  {
  }

  /** The chosen pool is the first of those that fit best; none is chosen only if
      the address is in no pool. */
  lemma PoolForIsBest(pools: seq<Pool>, ip: int, bridge: string, node: Option<string>)
    ensures var r := PoolFor(pools, ip, bridge, node);
      if r == None then forall p <- pools :: Rank(p, ip, bridge, node) == 0
      else exists i: nat :: BestAt(pools, i, ip, bridge, node) && r == Some(pools[i])
  {
    forall p | p in pools ensures Holding(ip)(p) <==> Rank(p, ip, bridge, node) > 0 { RankOf(p, ip, bridge, node); }
    forall j: nat | j < |pools|
      ensures bridge != "" ==> (Exact(ip, bridge, node)(pools[j]) <==> Rank(pools[j], ip, bridge, node) == 3)
      ensures bridge != "" ==> (OnVnet(ip, bridge)(pools[j]) <==> Rank(pools[j], ip, bridge, node) == 2)
      ensures Holding(ip)(pools[j]) <==> Rank(pools[j], ip, bridge, node) > 0
      ensures Rank(pools[j], ip, bridge, node) <= if bridge == "" then 1 else 3
    {
      RankOf(pools[j], ip, bridge, node);
    }
    var a := FirstOfAt(pools, Exact(ip, bridge, node));
    var b := FirstOfAt(pools, OnVnet(ip, bridge));
    var c := FirstOfAt(pools, Holding(ip));
    if bridge != "" && FirstOf(pools, Exact(ip, bridge, node)).Some? {
      assert BestAt(pools, a, ip, bridge, node);
    } else if bridge != "" && FirstOf(pools, OnVnet(ip, bridge)).Some? {
      assert BestAt(pools, b, ip, bridge, node);
    } else if FirstOf(pools, Holding(ip)).Some? {
      assert BestAt(pools, c, ip, bridge, node);
    } else {
      forall p | p in pools ensures Rank(p, ip, bridge, node) == 0 { FirstOfIff(pools, Holding(ip)); }
    }
  }

}
