/** Tier assignment and retention of automatic snapshots, for one job and one
    target: the functions of a single run. */
module Retention {
  import opened Calendar
  import opened Numbers

  datatype Tier = Daily | Weekly | Monthly

  datatype Snap = Snap(id: string, name: string, at: int, tiers: seq<Tier>)

  /** `keep_last`, `keep_daily`, `keep_weekly`, `keep_monthly` */
  datatype Keeps = Keeps(last: int, daily: int, weekly: int, monthly: int)

  // ------------------------------------------------------------------- tiers

  /** The tiers that are assigned once per bucket. */
  type Gfs = t: Tier | t != Daily witness Weekly

  /** `_bucket_keys`, the label of the tier */
  function Label(tier: Gfs): int -> (int, int)
  {
    if tier == Weekly then WeekLabel else MonthLabel
  }

  /** The label compared by the code. */
  predicate SameBucket(tier: Gfs, a: int, b: int)
  {
    Label(tier)(a) == Label(tier)(b)
  }

  function Count(tier: Gfs): int -> int
  {
    if tier == Weekly then Week else Month
  }

  /** The same bucket as a running number. */
  function Bucket(tier: Gfs, t: int): int
  {
    Count(tier)(t)
  }

  lemma BucketExact(tier: Gfs, a: int, b: int)
    ensures SameBucket(tier, a, b) <==> Bucket(tier, a) == Bucket(tier, b)
  {
    if tier == Weekly { WeekLabelExact(a, b); } else { MonthLabelExact(a, b); }
  }

  lemma BucketForward(tier: Gfs, a: int, b: int)
    requires a <= b
    ensures Bucket(tier, a) <= Bucket(tier, b)
  {
    BucketsOrdered(a, b);
  }

  predicate Taken(tier: Gfs, active: seq<Snap>, now: int)
  {
    exists s <- active :: tier in s.tiers && SameBucket(tier, s.at, now)
  }

  lemma TakenSnoc(tier: Gfs, active: seq<Snap>, i: nat, now: int)
    requires i < |active|
    ensures Taken(tier, active[..i + 1], now)
       <==> Taken(tier, active[..i], now) || (tier in active[i].tiers && SameBucket(tier, active[i].at, now))
    ensures Taken(tier, active[..i + 1], now) ==> Taken(tier, active, now)
  {
    assert active[..i + 1] == active[..i] + [active[i]];
  }

  /** The tiers of a snapshot created while `active` were the active ones. */
  function Tiers(active: seq<Snap>, gfs: bool, now: int): seq<Tier>
  {
    if !gfs then [Daily]
    else
      [Daily] + (if Taken(Weekly, active, now) then [] else [Weekly])
      + (if Taken(Monthly, active, now) then [] else [Monthly])
  }

  lemma TiersOf(active: seq<Snap>, now: int)
    ensures var week, month := Taken(Weekly, active, now), Taken(Monthly, active, now);
      var weekly := if week then [Daily] else [Daily] + [Weekly];
      Tiers(active, true, now) == if month then weekly else weekly + [Monthly]
  {
  }

  /** `compute_gfs_tiers` */
  method ComputeGfsTiers(active: seq<Snap>, gfs: bool, now: int) returns (tiers: seq<Tier>)
    ensures tiers == Tiers(active, gfs, now)
  {
    tiers := [Daily];
    if !gfs {
      return;
    }
    var weekTaken, monthTaken := false, false;
    for i := 0 to |active|
      invariant weekTaken <==> Taken(Weekly, active[..i], now)
      invariant monthTaken <==> Taken(Monthly, active[..i], now)
    {
      var s := active[i];
      TakenSnoc(Weekly, active, i, now);
      TakenSnoc(Monthly, active, i, now);
      if Weekly in s.tiers && SameBucket(Weekly, s.at, now) {
        weekTaken := true;
      }
      if Monthly in s.tiers && SameBucket(Monthly, s.at, now) {
        monthTaken := true;
      }
      if weekTaken && monthTaken {
        TiersOf(active, now);
        return;
      }
    }
    assert active[..|active|] == active;
    TiersOf(active, now);
    if !weekTaken {
      tiers := tiers + [Weekly];
    }
    if !monthTaken {
      tiers := tiers + [Monthly];
    }
  }

  lemma TierAssigned(active: seq<Snap>, gfs: bool, now: int, tier: Gfs)
    ensures tier in Tiers(active, gfs, now) <==> gfs && !Taken(tier, active, now)
  {
  }

  lemma DailyAssigned(active: seq<Snap>, gfs: bool, now: int)
    ensures Daily in Tiers(active, gfs, now)
  {
    assert Tiers(active, gfs, now)[0] == Daily;
  }

  /** Every snapshot is daily. With GFS on it is weekly unless an active snapshot of
      its ISO week is, and monthly unless one of its month is. */
  lemma TiersIff(active: seq<Snap>, gfs: bool, now: int)
    ensures var tiers := Tiers(active, gfs, now);
      && Daily in tiers
      && (Weekly in tiers <==> gfs && !exists s <- active :: Weekly in s.tiers && WeekLabel(s.at) == WeekLabel(now))
      && (Monthly in tiers <==> gfs && !exists s <- active :: Monthly in s.tiers && MonthLabel(s.at) == MonthLabel(now))
  {
    DailyAssigned(active, gfs, now);
    TierAssigned(active, gfs, now, Weekly);
    TierAssigned(active, gfs, now, Monthly);
    TakenLabels(active, now);
  }

  lemma TakenLabels(active: seq<Snap>, now: int)
    ensures Taken(Weekly, active, now) <==>
      exists s <- active :: Weekly in s.tiers && WeekLabel(s.at) == WeekLabel(now)
    ensures Taken(Monthly, active, now) <==>
      exists s <- active :: Monthly in s.tiers && MonthLabel(s.at) == MonthLabel(now)
  {
  }

  // ---------------------------------------------------------------- keep sets

  /** `xs[:n]`, nothing for a negative `n` */
  function Take(xs: seq<Snap>, n: int): seq<Snap>
  {
    if n <= 0 then [] else if n >= |xs| then xs else xs[..n]
  }

  /** The snapshots of a tier, in the same order. */
  function Pool(tier: Tier, xs: seq<Snap>): seq<Snap>
  {
    if xs == [] then []
    else if tier in xs[0].tiers then [xs[0]] + Pool(tier, xs[1..])
    else Pool(tier, xs[1..])
  }

  function Ids(xs: seq<Snap>): set<string>
  {
    set s <- xs :: s.id
  }

  function Keep(xs: seq<Snap>, k: Keeps): set<string>
  {
    Ids(Take(xs, k.last)) + Ids(Take(Pool(Daily, xs), k.daily))
    + Ids(Take(Pool(Weekly, xs), k.weekly)) + Ids(Take(Pool(Monthly, xs), k.monthly))
  }

  /** The snapshots with one of the given ids. */
  function Only(xs: seq<Snap>, ids: set<string>): seq<Snap>
  {
    if xs == [] then []
    else if xs[0].id in ids then [xs[0]] + Only(xs[1..], ids)
    else Only(xs[1..], ids)
  }

  /** What one rotation leaves active when the deletes of `failed` do not succeed. */
  function Remaining(xs: seq<Snap>, k: Keeps, failed: set<string>): seq<Snap>
  {
    Only(xs, Keep(xs, k) + failed)
  }

  // ------------------------------------------------------- what is kept, by position

  /** How many snapshots before position `i` carry a tier. */
  function Earlier(tier: Tier, xs: seq<Snap>, i: nat): nat
    requires i <= |xs|
  {
    |set j | 0 <= j < i && tier in xs[j].tiers|
  }

  predicate DistinctIds(xs: seq<Snap>)
  {
    forall i, j :: 0 <= i < j < |xs| ==> xs[i].id != xs[j].id
  }

  function Setting(k: Keeps, tier: Tier): int
  {
    match tier case Daily => k.daily case Weekly => k.weekly case Monthly => k.monthly
  }

  lemma EarlierSnoc(tier: Tier, xs: seq<Snap>, i: nat)
    requires i < |xs|
    ensures Earlier(tier, xs, i + 1) == Earlier(tier, xs, i) + (if tier in xs[i].tiers then 1 else 0)
  {
    var before := set j | 0 <= j < i && tier in xs[j].tiers;
    var upTo := set j | 0 <= j < i + 1 && tier in xs[j].tiers;
    assert upTo == before + (if tier in xs[i].tiers then {i} else {});
  }

  lemma {:induction false} PoolSnoc(tier: Tier, xs: seq<Snap>, x: Snap)
    ensures Pool(tier, xs + [x]) == Pool(tier, xs) + (if tier in x.tiers then [x] else [])
  {
    if xs != [] {
      PoolSnoc(tier, xs[1..], x);
      assert (xs + [x])[1..] == xs[1..] + [x];
    }
  }

  /** A snapshot's position in the pool of a tier is the number of those before it. */
  lemma {:induction false} PoolPrefix(tier: Tier, xs: seq<Snap>, i: nat)
    requires i <= |xs|
    ensures |Pool(tier, xs[..i])| == Earlier(tier, xs, i) && Pool(tier, xs[..i]) <= Pool(tier, xs)
    decreases |xs| - i
  {
    PoolCount(tier, xs, i);
    if i == |xs| {
      assert xs[..i] == xs;
    } else {
      PoolPrefix(tier, xs, i + 1);
      assert xs[..i + 1] == xs[..i] + [xs[i]];
      PoolSnoc(tier, xs[..i], xs[i]);
    }
  }

  lemma {:induction false} PoolCount(tier: Tier, xs: seq<Snap>, i: nat)
    requires i <= |xs|
    ensures |Pool(tier, xs[..i])| == Earlier(tier, xs, i)
  {
    if i == 0 {
      assert xs[..0] == [];
    } else {
      PoolCount(tier, xs, i - 1);
      EarlierSnoc(tier, xs, i - 1);
      assert xs[..i] == xs[..i - 1] + [xs[i - 1]];
      PoolSnoc(tier, xs[..i - 1], xs[i - 1]);
    }
  }

  lemma PoolAt(tier: Tier, xs: seq<Snap>, i: nat)
    requires i < |xs| && tier in xs[i].tiers
    ensures Earlier(tier, xs, i) < |Pool(tier, xs)| && Pool(tier, xs)[Earlier(tier, xs, i)] == xs[i]
  {
    PoolPrefix(tier, xs, i);
    PoolPrefix(tier, xs, i + 1);
    assert xs[..i + 1] == xs[..i] + [xs[i]];
    PoolSnoc(tier, xs[..i], xs[i]);
  }

  lemma {:induction false} PoolFrom(tier: Tier, xs: seq<Snap>, j: nat) returns (i: nat)
    requires j < |Pool(tier, xs)|
    ensures i < |xs| && tier in xs[i].tiers && Pool(tier, xs)[j] == xs[i] && Earlier(tier, xs, i) == j
    decreases |xs|
  {
    var n := |xs| - 1;
    assert xs == xs[..n] + [xs[n]];
    PoolSnoc(tier, xs[..n], xs[n]);
    PoolCount(tier, xs, n);
    if j < |Pool(tier, xs[..n])| {
      i := PoolFrom(tier, xs[..n], j);
      assert (set q | 0 <= q < i && tier in xs[..n][q].tiers) == set q | 0 <= q < i && tier in xs[q].tiers;
    } else {
      i := n;
    }
  }

  /** The newest `n` of a tier, by position. */
  lemma TierKeptIff(tier: Tier, xs: seq<Snap>, n: int, i: nat)
    requires i < |xs| && DistinctIds(xs)
    ensures xs[i].id in Ids(Take(Pool(tier, xs), n)) <==> tier in xs[i].tiers && Earlier(tier, xs, i) < n
  {
    var p := Pool(tier, xs);
    if tier in xs[i].tiers && Earlier(tier, xs, i) < n {
      PoolAt(tier, xs, i);
      assert Take(p, n)[Earlier(tier, xs, i)] == xs[i];
    }
    if xs[i].id in Ids(Take(p, n)) {
      var j :| 0 <= j < |Take(p, n)| && Take(p, n)[j].id == xs[i].id;
      assert Take(p, n)[j] == p[j];
      var q := PoolFrom(tier, xs, j);
      assert q == i;
    }
  }

  lemma LastKeptIff(xs: seq<Snap>, n: int, i: nat)
    requires i < |xs| && DistinctIds(xs)
    ensures xs[i].id in Ids(Take(xs, n)) <==> i < n
  {
    if i < n { assert Take(xs, n)[i] == xs[i]; }
    if xs[i].id in Ids(Take(xs, n)) {
      var j :| 0 <= j < |Take(xs, n)| && Take(xs, n)[j].id == xs[i].id;
      assert Take(xs, n)[j] == xs[j];
    }
  }

  /** A snapshot is among the newest `keep_last`, or carries a tier that fewer newer
      ones carry than the setting of that tier keeps. */
  predicate Deserves(xs: seq<Snap>, k: Keeps, i: nat)
    requires i < |xs|
  {
    i < k.last || exists tier <- xs[i].tiers :: Earlier(tier, xs, i) < Setting(k, tier)
  }

  /** These are exactly the ones that are kept. */
  lemma KeepIff(xs: seq<Snap>, k: Keeps, i: nat)
    requires i < |xs| && DistinctIds(xs)
    ensures xs[i].id in Keep(xs, k) <==> Deserves(xs, k, i)
  {
    LastKeptIff(xs, k.last, i);
    TierKeptIff(Daily, xs, k.daily, i);
    TierKeptIff(Weekly, xs, k.weekly, i);
    TierKeptIff(Monthly, xs, k.monthly, i);
    if exists tier <- xs[i].tiers :: Earlier(tier, xs, i) < Setting(k, tier) {
      var tier :| tier in xs[i].tiers && Earlier(tier, xs, i) < Setting(k, tier);
      match tier case Daily => case Weekly => case Monthly =>
    } else {
      assert forall tier: Tier :: tier in xs[i].tiers ==> Earlier(tier, xs, i) >= Setting(k, tier);
    }
  }

  /** Nothing else is in the keep set. */
  lemma KeepIsListed(xs: seq<Snap>, k: Keeps)
    ensures Keep(xs, k) <= Ids(xs)
  {
    PoolPart(Daily, xs);
    PoolPart(Weekly, xs);
    PoolPart(Monthly, xs);
  }

  lemma {:induction false} PoolPart(tier: Tier, xs: seq<Snap>)
    ensures forall s <- Pool(tier, xs) :: s in xs
  {
    if xs != [] { PoolPart(tier, xs[1..]); }
  }

  method AddIds(keep: set<string>, xs: seq<Snap>) returns (r: set<string>)
    ensures r == keep + Ids(xs)
  {
    r := keep;
    for i := 0 to |xs|
      invariant r == keep + Ids(xs[..i])
    {
      assert xs[..i + 1] == xs[..i] + [xs[i]];
      r := r + {xs[i].id};
    }
    assert xs[..|xs|] == xs;
  }

  /** `determine_keep_set` */
  method DetermineKeepSet(snapshots: seq<Snap>, k: Keeps) returns (keep: set<string>)
    ensures keep == Keep(snapshots, k) && keep <= Ids(snapshots)
    ensures DistinctIds(snapshots) ==>
      forall i: nat :: i < |snapshots| ==> (snapshots[i].id in keep <==> Deserves(snapshots, k, i))
  {
    keep := AddIds({}, Take(snapshots, k.last));
    if k.daily > 0 {
      keep := AddIds(keep, Take(Pool(Daily, snapshots), k.daily));
    }
    if k.weekly > 0 {
      keep := AddIds(keep, Take(Pool(Weekly, snapshots), k.weekly));
    }
    if k.monthly > 0 {
      keep := AddIds(keep, Take(Pool(Monthly, snapshots), k.monthly));
    }
    KeepIsListed(snapshots, k);
    if DistinctIds(snapshots) {
      forall i: nat | i < |snapshots| ensures snapshots[i].id in keep <==> Deserves(snapshots, k, i) {
        KeepIff(snapshots, k, i);
      }
    }
  }

  /** As every snapshot is tagged daily, the newest of the larger of `keep_last` and
      `keep_daily` stay. */
  lemma NewestKept(xs: seq<Snap>, k: Keeps, i: nat)
    requires DistinctIds(xs) && (forall s <- xs :: Daily in s.tiers) && i < |xs| && i < Max(k.last, k.daily)
    ensures xs[i].id in Keep(xs, k)
  {
    KeepIff(xs, k, i);
    forall j | 0 <= j < |xs| ensures Daily in xs[j].tiers { assert xs[j] in xs; }
    AllCarry(Daily, xs, i);
  }

  lemma {:induction false} AllCarry(tier: Tier, xs: seq<Snap>, i: nat)
    requires i <= |xs| && forall j :: 0 <= j < |xs| ==> tier in xs[j].tiers
    ensures Earlier(tier, xs, i) == i
  {
    if i > 0 {
      AllCarry(tier, xs, i - 1);
      EarlierSnoc(tier, xs, i - 1);
    }
  }

  // --------------------------------------------- keep sets depend on what is kept

  lemma {:induction false} PoolOnly(tier: Tier, xs: seq<Snap>, ids: set<string>)
    ensures Pool(tier, Only(xs, ids)) == Only(Pool(tier, xs), ids)
  {
    if xs != [] {
      PoolOnly(tier, xs[1..], ids);
      if xs[0].id in ids {
        assert Only(xs, ids)[0] == xs[0] && Only(xs, ids)[1..] == Only(xs[1..], ids);
      }
      if tier in xs[0].tiers {
        assert Pool(tier, xs)[0] == xs[0] && Pool(tier, xs)[1..] == Pool(tier, xs[1..]);
      }
    }
  }

  lemma {:induction false} TakeOnly(xs: seq<Snap>, n: int, ids: set<string>)
    requires Ids(Take(xs, n)) <= ids
    ensures Take(Only(xs, ids), n) == Take(xs, n)
  {
    if n > 0 && xs != [] {
      assert xs[0] in Take(xs, n);
      assert xs[0].id in Ids(Take(xs, n));
      forall id | id in Ids(Take(xs[1..], n - 1)) ensures id in ids {
        var s :| s in Take(xs[1..], n - 1) && s.id == id;
        assert s in Take(xs, n);
      }
      TakeOnly(xs[1..], n - 1, ids);
      TakeCons(xs[0], xs[1..], n);
      assert xs == [xs[0]] + xs[1..];
      TakeCons(xs[0], Only(xs[1..], ids), n);
    }
  }

  lemma TakeCons(x: Snap, xs: seq<Snap>, n: int)
    requires n > 0
    ensures Take([x] + xs, n) == [x] + Take(xs, n - 1)
  {
  }

  /** Dropping snapshots outside the keep set does not change the keep set. */
  lemma KeepStable(xs: seq<Snap>, k: Keeps, ids: set<string>)
    requires Keep(xs, k) <= ids
    ensures Keep(Only(xs, ids), k) == Keep(xs, k)
  {
    TakeOnly(xs, k.last, ids);
    PoolOnly(Daily, xs, ids);
    TakeOnly(Pool(Daily, xs), k.daily, ids);
    PoolOnly(Weekly, xs, ids);
    TakeOnly(Pool(Weekly, xs), k.weekly, ids);
    PoolOnly(Monthly, xs, ids);
    TakeOnly(Pool(Monthly, xs), k.monthly, ids);
  }

  lemma {:induction false} OnlyTwice(xs: seq<Snap>, a: set<string>, b: set<string>)
    ensures Only(Only(xs, a), b) == Only(xs, a * b)
  {
    if xs != [] {
      OnlyTwice(xs[1..], a, b);
      if xs[0].id in a {
        assert Only(xs, a)[0] == xs[0] && Only(xs, a)[1..] == Only(xs[1..], a);
      }
    }
  }

  /** Retention is idempotent, and deletes that fail are made up for: a later
      rotation without new snapshots ends where one without failures ends. */
  lemma RotationConverges(xs: seq<Snap>, k: Keeps, failed: set<string>)
    ensures Keep(Remaining(xs, k, failed), k) == Keep(xs, k)
    ensures Remaining(Remaining(xs, k, failed), k, {}) == Remaining(xs, k, {})
  {
    var kept := Keep(xs, k);
    KeepStable(xs, k, kept + failed);
    OnlyTwice(xs, kept + failed, kept);
    assert (kept + failed) * kept == kept;
    assert kept + {} == kept;
  }

  lemma {:induction false} IdsBound(xs: seq<Snap>)
    ensures |Ids(xs)| <= |xs|
  {
    if xs != [] {
      IdsBound(xs[1..]);
      assert xs == [xs[0]] + xs[1..];
      assert Ids(xs) == {xs[0].id} + Ids(xs[1..]);
    }
  }

  lemma TakeBound(xs: seq<Snap>, n: int)
    ensures |Ids(Take(xs, n))| <= Max(n, 0)
  {
    IdsBound(Take(xs, n));
  }

  lemma {:induction false} AllDaily(xs: seq<Snap>)
    requires forall s <- xs :: Daily in s.tiers
    ensures Pool(Daily, xs) == xs
  {
    if xs != [] {
      assert xs[0] in xs;
      AllDaily(xs[1..]);
      assert xs == [xs[0]] + xs[1..];
    }
  }

  lemma UnionBound(a: set<string>, b: set<string>)
    ensures |a + b| <= |a| + |b|
  {
    assert a + b == a + (b - a);
    assert b - a <= b;
    assert b == (b - a) + (a * b);
  }

  /** Every snapshot is tagged daily, so `keep_daily` is a second `keep_last`. */
  lemma KeepBound(xs: seq<Snap>, k: Keeps)
    requires forall s <- xs :: Daily in s.tiers
    ensures Ids(Take(xs, k.last)) <= Keep(xs, k)
    ensures |Keep(xs, k)| <= Max(0, Max(k.last, k.daily)) + Max(0, k.weekly) + Max(0, k.monthly)
  {
    AllDaily(xs);
    var floor := Ids(Take(xs, Max(k.last, k.daily)));
    var weekly, monthly := Ids(Take(Pool(Weekly, xs), k.weekly)), Ids(Take(Pool(Monthly, xs), k.monthly));
    TakeBound(xs, Max(k.last, k.daily));
    TakeBound(Pool(Weekly, xs), k.weekly);
    TakeBound(Pool(Monthly, xs), k.monthly);
    TakeLonger(xs, k.last, k.daily);
    assert Keep(xs, k) == floor + weekly + monthly;
    UnionBound(floor, weekly);
    UnionBound(floor + weekly, monthly);
  }

  lemma TakeLonger(xs: seq<Snap>, m: int, n: int)
    ensures Ids(Take(xs, m)) + Ids(Take(xs, n)) == Ids(Take(xs, Max(m, n)))
  {
    var lo, hi := if m < n then m else n, Max(m, n);
    forall s | s in Take(xs, lo) ensures s in Take(xs, hi) { }
  }
}
