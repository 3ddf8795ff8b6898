/** Tier assignment and retention over whole histories of one target. */
module RetentionRuns {
  import opened Calendar
  import opened Options
  import opened Retention

  /** A created snapshot: tiers are computed at `tierTime`, `at` is the later
      clock reading that is stored. */
  datatype New = New(id: string, name: string, tierTime: int, at: int)

  datatype Event =
    | Job(keeps: Keeps, gfs: bool, made: Option<New>, failed: set<string>)
    | Gone(ids: set<string>)

  /** `active` and `created` list the newest first; `created`, and `gone` with what was
      deleted from outside, are history only. */
  datatype Target = Target(active: seq<Snap>, created: seq<Snap>, gone: set<Snap>, clock: int)

  function Empty(start: int): Target { Target([], [], {}, start) }

  function FromActive(active: seq<Snap>): Target { Target(active, [], {}, 0) }

  function MadeSnap(active: seq<Snap>, gfs: bool, n: New): Snap
  {
    Snap(n.id, n.name, n.at, Tiers(active, gfs, n.tierTime))
  }

  /** The snapshot a run creates, if any. */
  function Made(active: seq<Snap>, e: Event): seq<Snap>
    requires e.Job?
  {
    if e.made.Some? then [MadeSnap(active, e.gfs, e.made.value)] else []
  }

  /** One run creates first and rotates afterwards; a snapshot can also vanish. */
  function After(s: Target, e: Event): Target
  {
    match e
    case Gone(ids) =>
      s.(active := Only(s.active, Ids(s.active) - ids), gone := s.gone + set a <- s.active | a.id in ids)
    case Job(keeps, gfs, made, failed) =>
      var added := Made(s.active, e);
      Target(Remaining(added + s.active, keeps, failed), added + s.created, s.gone,
             if made.Some? then made.value.at else s.clock)
  }

  /** The clock never goes back and timestamps differ. */
  predicate Legal(s: Target, e: Event)
  {
    e.Job? && e.made.Some? ==> s.clock <= e.made.value.tierTime <= e.made.value.at && s.clock < e.made.value.at
  }

  function AfterAll(s: Target, es: seq<Event>): Target
    decreases es
  {
    if es == [] then s else AfterAll(After(s, es[0]), es[1..])
  }

  predicate AllLegal(s: Target, es: seq<Event>)
    decreases es
  {
    es != [] ==> Legal(s, es[0]) && AllLegal(After(s, es[0]), es[1..])
  }

  // ------------------------------------------------------------ buckets per tier

  /** Buckets strictly fall along the list: none occurs twice. */
  predicate Falling(tier: Gfs, xs: seq<Snap>)
  {
    xs != [] ==> (forall s <- xs[1..] :: Bucket(tier, s.at) < Bucket(tier, xs[0].at)) && Falling(tier, xs[1..])
  }

  predicate Before(xs: seq<Snap>, clock: int)
  {
    forall s <- xs :: s.at <= clock
  }

  lemma {:induction false} OnlyMembers(xs: seq<Snap>, ids: set<string>)
    ensures forall s :: s in Only(xs, ids) <==> s in xs && s.id in ids
  {
    if xs != [] {
      OnlyMembers(xs[1..], ids);
      assert xs == [xs[0]] + xs[1..];
    }
  }

  lemma {:induction false} PoolMembers(tier: Tier, xs: seq<Snap>)
    ensures forall s :: s in Pool(tier, xs) <==> s in xs && tier in s.tiers
  {
    if xs != [] {
      PoolMembers(tier, xs[1..]);
      assert xs == [xs[0]] + xs[1..];
    }
  }

  lemma {:induction false} OnlyFalling(tier: Gfs, xs: seq<Snap>, ids: set<string>)
    requires Falling(tier, xs)
    ensures Falling(tier, Only(xs, ids))
  {
    if xs != [] {
      OnlyFalling(tier, xs[1..], ids);
      OnlyMembers(xs[1..], ids);
      var r := Only(xs, ids);
      if xs[0].id in ids { assert r[0] == xs[0] && r[1..] == Only(xs[1..], ids); }
    }
  }

  lemma PoolCons(tier: Tier, x: Snap, xs: seq<Snap>)
    ensures Pool(tier, [x] + xs) == if tier in x.tiers then [x] + Pool(tier, xs) else Pool(tier, xs)
  {
    assert ([x] + xs)[1..] == xs;
  }

  lemma FallingCons(tier: Gfs, x: Snap, xs: seq<Snap>)
    requires Falling(tier, xs) && forall s <- xs :: Bucket(tier, s.at) < Bucket(tier, x.at)
    ensures Falling(tier, [x] + xs)
  {
    assert ([x] + xs)[1..] == xs;
  }

  /** A tag is given only if the buckets of the tagged ones lie strictly before,
      even if the bucket changes between the two clock readings. */
  lemma NewTagIsLater(tier: Gfs, active: seq<Snap>, gfs: bool, n: New, s: Snap)
    requires s in active && tier in s.tiers && s.at <= n.tierTime <= n.at
    requires tier in Tiers(active, gfs, n.tierTime)
    ensures Bucket(tier, s.at) < Bucket(tier, n.at)
  {
    TierAssigned(active, gfs, n.tierTime, tier);
    BucketExact(tier, s.at, n.tierTime);
    BucketForward(tier, s.at, n.tierTime);
    BucketForward(tier, n.tierTime, n.at);
  }

  // -------------------------------------------------------------- tier uniqueness

  predicate Inv(s: Target)
  {
    Before(s.active, s.clock) && Falling(Weekly, Pool(Weekly, s.active)) && Falling(Monthly, Pool(Monthly, s.active))
  }

  lemma CreateKeepsFalling(tier: Gfs, s: Target, e: Event)
    requires e.Job? && Legal(s, e) && Before(s.active, s.clock) && Falling(tier, Pool(tier, s.active))
    ensures Falling(tier, Pool(tier, Made(s.active, e) + s.active))
  {
    if e.made.Some? {
      var n := e.made.value;
      var x := MadeSnap(s.active, e.gfs, n);
      PoolCons(tier, x, s.active);
      PoolMembers(tier, s.active);
      if tier in x.tiers {
        forall t | t in Pool(tier, s.active) ensures Bucket(tier, t.at) < Bucket(tier, x.at) {
          NewTagIsLater(tier, s.active, e.gfs, n, t);
        }
        FallingCons(tier, x, Pool(tier, s.active));
      }
    } else {
      assert Made(s.active, e) + s.active == s.active;
    }
  }

  lemma FilterKeepsFalling(tier: Gfs, xs: seq<Snap>, ids: set<string>)
    requires Falling(tier, Pool(tier, xs))
    ensures Falling(tier, Pool(tier, Only(xs, ids)))
  {
    PoolOnly(tier, xs, ids);
    OnlyFalling(tier, Pool(tier, xs), ids);
  }

  lemma InvKept(s: Target, e: Event)
    requires Inv(s) && Legal(s, e)
    ensures Inv(After(s, e))
  {
    match e
    case Gone(ids) =>
      OnlyMembers(s.active, Ids(s.active) - ids);
      FilterKeepsFalling(Weekly, s.active, Ids(s.active) - ids);
      FilterKeepsFalling(Monthly, s.active, Ids(s.active) - ids);
    case Job(keeps, gfs, made, failed) =>
      var all := Made(s.active, e) + s.active;
      CreateKeepsFalling(Weekly, s, e);
      CreateKeepsFalling(Monthly, s, e);
      OnlyMembers(all, Keep(all, keeps) + failed);
      FilterKeepsFalling(Weekly, all, Keep(all, keeps) + failed);
      FilterKeepsFalling(Monthly, all, Keep(all, keeps) + failed);
  }

  lemma {:induction false} InvReached(s: Target, es: seq<Event>)
    requires Inv(s) && AllLegal(s, es)
    ensures Inv(AfterAll(s, es))
    decreases es
  {
    if es != [] {
      InvKept(s, es[0]);
      InvReached(After(s, es[0]), es[1..]);
    }
  }

  lemma {:induction false} FallingDistinct(tier: Gfs, xs: seq<Snap>, a: Snap, b: Snap)
    requires Falling(tier, xs) && a in xs && b in xs && Bucket(tier, a.at) == Bucket(tier, b.at)
    ensures a == b
  {
    if a != xs[0] && b != xs[0] { FallingDistinct(tier, xs[1..], a, b); }
  }

  /** After any history, whatever was deleted from outside and whichever deletes
      failed: two active snapshots tagged weekly in one ISO week, or monthly in
      one month, are the same snapshot. */
  lemma TierUniqueness(es: seq<Event>, start: int, tier: Gfs, a: Snap, b: Snap)
    requires AllLegal(Empty(start), es)
    requires var active := AfterAll(Empty(start), es).active;
      a in active && b in active && tier in a.tiers && tier in b.tiers && SameBucket(tier, a.at, b.at)
    ensures a == b
  {
    var s := AfterAll(Empty(start), es);
    InvReached(Empty(start), es);
    BucketExact(tier, a.at, b.at);
    PoolMembers(tier, s.active);
    FallingDistinct(tier, Pool(tier, s.active), a, b);
  }

  // ---------------------------------------------------------------- tier coverage

  function KeepsFor(tier: Gfs, k: Keeps): int
  {
    if tier == Weekly then k.weekly else k.monthly
  }

  /** A run with GFS on that keeps at least `n` of the tier; creates and deletes may
      fail, and snapshots may vanish. */
  predicate Covering(tier: Gfs, n: nat, e: Event)
  {
    e.Job? ==> e.gfs && KeepsFor(tier, e.keeps) >= n
  }

  predicate Tagged(tier: Gfs, xs: seq<Snap>, w: int)
  {
    exists c <- xs :: tier in c.tiers && Bucket(tier, c.at) == w
  }

  /** The buckets after `w` in which a snapshot was created. */
  function BucketsAfter(tier: Gfs, created: seq<Snap>, w: int): set<int>
  {
    set c | c in created && Bucket(tier, c.at) > w :: Bucket(tier, c.at)
  }

  /** Fewer than `n` later buckets had a snapshot. */
  predicate Recent(tier: Gfs, n: nat, created: seq<Snap>, w: int)
  {
    |BucketsAfter(tier, created, w)| < n
  }

  /** Every tagged snapshot of a recent bucket that has not vanished is active. */
  predicate Covered(tier: Gfs, n: nat, s: Target)
  {
    Before(s.created, s.clock) && Falling(tier, Pool(tier, s.active))
    && (forall a <- s.active :: a in s.created && a !in s.gone)
    && (forall g <- s.gone :: g in s.created)
    && forall c <- s.created :: tier in c.tiers && c !in s.gone && Recent(tier, n, s.created, Bucket(tier, c.at)) ==>
      c in s.active
  }

  /** As many buckets as there are elements before position `p`. */
  lemma {:induction false} FallingCount(tier: Gfs, xs: seq<Snap>, p: nat, buckets: set<int>)
    requires Falling(tier, xs) && p < |xs|
    requires forall i :: 0 <= i < p ==> Bucket(tier, xs[i].at) in buckets
    ensures p <= |buckets|
  {
    if p > 0 {
      var first := Bucket(tier, xs[0].at);
      var rest := buckets - {first};
      assert first in buckets && |rest| == |buckets| - 1 by { assert buckets == rest + {first}; }
      forall i | 0 <= i < p - 1 ensures Bucket(tier, xs[1..][i].at) in rest {
        assert xs[1..][i] in xs[1..] && xs[1..][i] == xs[i + 1];
      }
      FallingCount(tier, xs[1..], p - 1, rest);
    }
  }

  lemma FallingHead(tier: Gfs, xs: seq<Snap>, s: Snap)
    requires xs != [] && Falling(tier, xs) && s in xs[1..]
    ensures Bucket(tier, xs[0].at) > Bucket(tier, s.at)
  {
  }

  lemma {:induction false} FallingDrop(tier: Gfs, xs: seq<Snap>, i: nat)
    requires Falling(tier, xs) && i <= |xs|
    ensures Falling(tier, xs[i..])
  {
    if i > 0 {
      FallingDrop(tier, xs[1..], i - 1);
      assert xs[1..][i - 1..] == xs[i..];
    } else {
      assert xs[0..] == xs;
    }
  }

  lemma FallingBefore(tier: Gfs, xs: seq<Snap>, i: nat, j: nat)
    requires Falling(tier, xs) && i < j < |xs|
    ensures Bucket(tier, xs[i].at) > Bucket(tier, xs[j].at)
  {
    var tail := xs[i..];
    FallingDrop(tier, xs, i);
    assert tail[0] == xs[i] && tail[1..][j - i - 1] == xs[j];
    FallingHead(tier, tail, xs[j]);
  }

  lemma PositionBound(tier: Gfs, created: seq<Snap>, p: seq<Snap>, j: nat)
    requires Falling(tier, p) && j < |p| && forall s <- p :: s in created
    ensures j <= |BucketsAfter(tier, created, Bucket(tier, p[j].at))|
  {
    var after := BucketsAfter(tier, created, Bucket(tier, p[j].at));
    forall i | 0 <= i < j ensures Bucket(tier, p[i].at) in after {
      FallingBefore(tier, p, i, j);
      assert p[i] in p;
    }
    FallingCount(tier, p, j, after);
  }

  lemma TakeAt(xs: seq<Snap>, n: nat, j: nat)
    requires j < n && j < |xs|
    ensures xs[j] in Take(xs, n)
  {
    assert Take(xs, n)[j] == xs[j];
  }

  lemma TakePart(xs: seq<Snap>, n: nat)
    ensures forall s <- Take(xs, n) :: s in xs
  {
  }

  /** A bucket stays recent backwards in time. */
  lemma RecentBefore(tier: Gfs, n: nat, added: seq<Snap>, created: seq<Snap>, w: int)
    requires Recent(tier, n, added + created, w)
    ensures Recent(tier, n, created, w)
  {
    var few, more := BucketsAfter(tier, created, w), BucketsAfter(tier, added + created, w);
    assert forall c <- created :: c in added + created;
    assert few <= more;
    Smaller(few, more);
  }

  lemma Smaller(few: set<int>, more: set<int>)
    requires few <= more
    ensures |few| <= |more|
  {
    assert more == few + (more - few);
  }

  /** Rotation keeps a tagged snapshot of a recent bucket. */
  lemma RotationKeepsRecent(tier: Gfs, n: nat, all: seq<Snap>, created: seq<Snap>, keeps: Keeps, failed: set<string>,
                            c: Snap)
    requires Falling(tier, Pool(tier, all)) && KeepsFor(tier, keeps) >= n && forall a <- all :: a in created
    requires c in all && tier in c.tiers && Recent(tier, n, created, Bucket(tier, c.at))
    ensures c in Remaining(all, keeps, failed)
  {
    var p := Pool(tier, all);
    PoolMembers(tier, all);
    var j :| 0 <= j < |p| && p[j] == c;
    PositionBound(tier, created, p, j);
    TakeAt(p, KeepsFor(tier, keeps), j);
    assert c.id in Ids(Take(p, KeepsFor(tier, keeps)));
    OnlyMembers(all, Keep(all, keeps) + failed);
  }

  lemma GoneKeepsCovered(tier: Gfs, n: nat, s: Target, ids: set<string>)
    requires Covered(tier, n, s)
    ensures Covered(tier, n, After(s, Gone(ids)))
  {
    OnlyMembers(s.active, Ids(s.active) - ids);
    FilterKeepsFalling(tier, s.active, Ids(s.active) - ids);
  }

  lemma JobKeepsCovered(tier: Gfs, n: nat, s: Target, e: Event)
    requires Covered(tier, n, s) && e.Job? && Covering(tier, n, e) && Legal(s, e)
    ensures Covered(tier, n, After(s, e))
  {
    var added, u := Made(s.active, e), After(s, e);
    var all := added + s.active;
    CreateKeepsFalling(tier, s, e);
    OnlyMembers(all, Keep(all, e.keeps) + e.failed);
    FilterKeepsFalling(tier, all, Keep(all, e.keeps) + e.failed);
    forall c | c in u.created && tier in c.tiers && c !in s.gone && Recent(tier, n, u.created, Bucket(tier, c.at))
      ensures c in u.active
    {
      if c !in added { RecentBefore(tier, n, added, s.created, Bucket(tier, c.at)); }
      RotationKeepsRecent(tier, n, all, u.created, e.keeps, e.failed, c);
    }
  }

  lemma CoveredKept(tier: Gfs, n: nat, s: Target, e: Event)
    requires Covered(tier, n, s) && Covering(tier, n, e) && Legal(s, e)
    ensures Covered(tier, n, After(s, e))
  {
    match e
    case Gone(ids) => GoneKeepsCovered(tier, n, s, ids);
    case Job(_, _, _, _) => JobKeepsCovered(tier, n, s, e);
  }

  /** Some snapshot tagged in the bucket has not vanished. */
  predicate Left(tier: Gfs, s: Target, w: int)
  {
    exists c <- s.created :: c !in s.gone && tier in c.tiers && Bucket(tier, c.at) == w
  }

  /** No snapshot tagged in the bucket has vanished. */
  predicate NoneGone(tier: Gfs, s: Target, w: int)
  {
    forall g <- s.gone :: tier in g.tiers ==> Bucket(tier, g.at) != w
  }

  /** A recent bucket is represented exactly if some snapshot tagged in it is left. */
  lemma RecentIff(tier: Gfs, n: nat, s: Target, w: int)
    requires Covered(tier, n, s) && Recent(tier, n, s.created, w)
    ensures Tagged(tier, s.active, w) <==> Left(tier, s, w)
  {
  }

  predicate AllCovering(tier: Gfs, n: nat, es: seq<Event>)
  {
    forall e <- es :: Covering(tier, n, e)
  }

  lemma {:induction false} CoveredReached(tier: Gfs, n: nat, s: Target, es: seq<Event>)
    requires Covered(tier, n, s) && AllLegal(s, es) && AllCovering(tier, n, es)
    ensures Covered(tier, n, AfterAll(s, es))
    decreases es
  {
    if es != [] {
      assert es[0] in es;
      CoveredKept(tier, n, s, es[0]);
      CoveredReached(tier, n, After(s, es[0]), es[1..]);
    }
  }

  /** Exactly one active snapshot of the tier lies in the bucket. */
  predicate Represented(tier: Gfs, xs: seq<Snap>, w: int)
  {
    exists a <- xs :: tier in a.tiers && Bucket(tier, a.at) == w
      && forall b <- xs :: tier in b.tiers && Bucket(tier, b.at) == w ==> b == a
  }

  /** Coverage over whole histories, with failed creates and deletes and deletions from
      outside: a bucket with fewer than `n` later buckets in which a snapshot was
      created is represented by exactly one active tagged snapshot if and only if
      some snapshot created in it was tagged and has not vanished. */
  lemma TierCoverage(es: seq<Event>, start: int, tier: Gfs, n: nat, w: int)
    requires AllLegal(Empty(start), es) && AllCovering(tier, n, es)
    requires |BucketsAfter(tier, AfterAll(Empty(start), es).created, w)| < n
    ensures var s := AfterAll(Empty(start), es);
      Represented(tier, s.active, w) <==> Left(tier, s, w)
  {
    var s := AfterAll(Empty(start), es);
    CoveredReached(tier, n, Empty(start), es);
    RecentIff(tier, n, s, w);
    InvReached(Empty(start), es);
    PoolMembers(tier, s.active);
    if Tagged(tier, s.active, w) {
      var a :| a in s.active && tier in a.tiers && Bucket(tier, a.at) == w;
      forall b | b in s.active && tier in b.tiers && Bucket(tier, b.at) == w ensures b == a {
        FallingDistinct(tier, Pool(tier, s.active), a, b);
      }
    }
  }

  lemma UntaggedBucket(tier: Gfs, s: Target, m: New, x: Snap, w: int)
    requires Before(s.created, s.clock) && s.clock <= m.tierTime && tier !in x.tiers
    requires Bucket(tier, m.tierTime) < w
    ensures !Tagged(tier, [x] + s.created, w)
  {
    forall c | c in s.created ensures Bucket(tier, c.at) < w {
      BucketForward(tier, c.at, m.tierTime);
    }
  }

  lemma TakenIsTagged(tier: Gfs, s: Target, now: int)
    requires (forall a <- s.active :: a in s.created) && Taken(tier, s.active, now)
    ensures Tagged(tier, s.created, Bucket(tier, now))
  {
    var t :| t in s.active && tier in t.tiers && SameBucket(tier, t.at, now);
    BucketExact(tier, t.at, now);
  }

  lemma OwnBucketOf(tier: Gfs, s: Target, m: New, x: Snap)
    requires (forall a <- s.active :: a in s.created) && Before(s.created, s.clock)
    requires s.clock <= m.tierTime <= m.at && x.at == m.at
    requires tier in x.tiers <==> !Taken(tier, s.active, m.tierTime)
    ensures Tagged(tier, [x] + s.created, Bucket(tier, m.at))
       <==> SameBucket(tier, m.tierTime, m.at) || !Taken(tier, s.active, m.tierTime)
  {
    BucketExact(tier, m.tierTime, m.at);
    if tier in x.tiers {
      assert x in [x] + s.created;
    } else if SameBucket(tier, m.tierTime, m.at) {
      TakenIsTagged(tier, s, m.tierTime);
      TaggedMore(tier, x, s.created, Bucket(tier, m.at));
    } else {
      BucketForward(tier, m.tierTime, m.at);
      UntaggedBucket(tier, s, m, x, Bucket(tier, m.at));
    }
  }

  /** When a creating run leaves its own bucket tagged: not if the bucket changed
      between the two clock readings while the earlier one was taken. */
  lemma OwnBucketTaggedIff(tier: Gfs, n: nat, s: Target, e: Event)
    requires Covered(tier, n, s) && e.Job? && e.gfs && e.made.Some? && Legal(s, e)
    ensures var m := e.made.value;
      Tagged(tier, After(s, e).created, Bucket(tier, m.at))
      <==> SameBucket(tier, m.tierTime, m.at) || !Taken(tier, s.active, m.tierTime)
  {
    var m := e.made.value;
    TierAssigned(s.active, e.gfs, m.tierTime, tier);
    OwnBucketOf(tier, s, m, MadeSnap(s.active, e.gfs, m));
  }

  predicate Steady(tier: Gfs, e: Event)
  {
    e.Job? && e.made.Some? ==> SameBucket(tier, e.made.value.tierTime, e.made.value.at)
  }

  predicate AllTagged(tier: Gfs, xs: seq<Snap>)
  {
    forall c <- xs :: Tagged(tier, xs, Bucket(tier, c.at))
  }

  lemma SteadyKept(tier: Gfs, n: nat, s: Target, e: Event)
    requires Covered(tier, n, s) && Covering(tier, n, e) && Legal(s, e) && Steady(tier, e) && AllTagged(tier, s.created)
    ensures AllTagged(tier, After(s, e).created)
  {
    if e.Job? && e.made.Some? {
      var x := MadeSnap(s.active, e.gfs, e.made.value);
      OwnBucketTaggedIff(tier, n, s, e);
      assert After(s, e).created == [x] + s.created;
      forall c | c in s.created ensures Tagged(tier, [x] + s.created, Bucket(tier, c.at)) {
        TaggedMore(tier, x, s.created, Bucket(tier, c.at));
      }
    } else {
      assert [] + s.created == s.created;
    }
  }

  lemma {:induction false} SteadyTags(tier: Gfs, n: nat, s: Target, es: seq<Event>)
    requires Covered(tier, n, s) && AllTagged(tier, s.created) && AllLegal(s, es) && AllCovering(tier, n, es)
    requires forall e <- es :: Steady(tier, e)
    ensures AllTagged(tier, AfterAll(s, es).created)
    decreases es
  {
    if es != [] {
      assert es[0] in es;
      CoveredKept(tier, n, s, es[0]);
      SteadyKept(tier, n, s, es[0]);
      SteadyTags(tier, n, After(s, es[0]), es[1..]);
    }
  }

  lemma NoneGoneIsLeft(tier: Gfs, s: Target, w: int)
    requires Tagged(tier, s.created, w) && NoneGone(tier, s, w)
    ensures Left(tier, s, w)
  {
  }

  /** If no run straddles a bucket boundary, each of the most recent `n` buckets in
      which a snapshot was created is represented by exactly one, unless one that was
      tagged in it has vanished. */
  lemma SteadyCoverage(es: seq<Event>, start: int, tier: Gfs, n: nat, c: Snap)
    requires AllLegal(Empty(start), es) && AllCovering(tier, n, es)
    requires forall e <- es :: Steady(tier, e)
    requires var s, w := AfterAll(Empty(start), es), Bucket(tier, c.at);
      c in s.created && |BucketsAfter(tier, s.created, w)| < n && NoneGone(tier, s, w)
    ensures Represented(tier, AfterAll(Empty(start), es).active, Bucket(tier, c.at))
  {
    SteadyTags(tier, n, Empty(start), es);
    NoneGoneIsLeft(tier, AfterAll(Empty(start), es), Bucket(tier, c.at));
    TierCoverage(es, start, tier, n, Bucket(tier, c.at));
  }

  // ------------------------------------------------------- buckets with two snapshots

  /** Two different snapshots were created in the bucket. */
  predicate Crowded(tier: Gfs, xs: seq<Snap>, w: int)
  {
    exists c <- xs, d <- xs :: c != d && Bucket(tier, c.at) == w && Bucket(tier, d.at) == w
  }

  predicate CrowdedTagged(tier: Gfs, xs: seq<Snap>)
  {
    forall c <- xs, d <- xs :: c != d && Bucket(tier, c.at) == Bucket(tier, d.at) ==>
      Tagged(tier, xs, Bucket(tier, c.at))
  }

  lemma TaggedMore(tier: Gfs, x: Snap, xs: seq<Snap>, w: int)
    requires Tagged(tier, xs, w)
    ensures Tagged(tier, [x] + xs, w)
  {
    var c :| c in xs && tier in c.tiers && Bucket(tier, c.at) == w;
    assert c in [x] + xs;
  }

  /** A snapshot that is not the first of its bucket leaves the bucket tagged: the run
      that made it cannot have straddled the bucket's start. */
  lemma SecondIsTagged(tier: Gfs, n: nat, s: Target, e: Event, d: Snap)
    requires Covered(tier, n, s) && e.Job? && e.gfs && e.made.Some? && Legal(s, e)
    requires d in s.created && Bucket(tier, d.at) == Bucket(tier, e.made.value.at)
    ensures Tagged(tier, After(s, e).created, Bucket(tier, e.made.value.at))
  {
    var m := e.made.value;
    BucketForward(tier, d.at, m.tierTime);
    BucketForward(tier, m.tierTime, m.at);
    BucketExact(tier, m.tierTime, m.at);
    OwnBucketTaggedIff(tier, n, s, e);
  }

  lemma CrowdedKept(tier: Gfs, n: nat, s: Target, e: Event)
    requires Covered(tier, n, s) && Covering(tier, n, e) && Legal(s, e) && CrowdedTagged(tier, s.created)
    ensures CrowdedTagged(tier, After(s, e).created)
  {
    if e.Job? && e.made.Some? {
      var x, all := MadeSnap(s.active, e.gfs, e.made.value), After(s, e).created;
      assert all == [x] + s.created;
      forall c, d | c in all && d in all && c != d && Bucket(tier, c.at) == Bucket(tier, d.at)
        ensures Tagged(tier, all, Bucket(tier, c.at))
      {
        if c == x {
          SecondIsTagged(tier, n, s, e, d);
        } else if d == x {
          SecondIsTagged(tier, n, s, e, c);
        } else {
          TaggedMore(tier, x, s.created, Bucket(tier, c.at));
        }
      }
    } else {
      assert [] + s.created == s.created;
    }
  }

  lemma {:induction false} CrowdedReached(tier: Gfs, n: nat, s: Target, es: seq<Event>)
    requires Covered(tier, n, s) && AllLegal(s, es) && AllCovering(tier, n, es) && CrowdedTagged(tier, s.created)
    ensures CrowdedTagged(tier, AfterAll(s, es).created)
    decreases es
  {
    if es != [] {
      assert es[0] in es;
      CoveredKept(tier, n, s, es[0]);
      CrowdedKept(tier, n, s, es[0]);
      CrowdedReached(tier, n, After(s, es[0]), es[1..]);
    }
  }

  /** Over whole histories a week or month in which two snapshots were created is
      represented by exactly one, unless one tagged in it has vanished: otherwise
      only the lone snapshot of a bucket can be lost. */
  lemma CrowdedCoverage(es: seq<Event>, start: int, tier: Gfs, n: nat, w: int)
    requires AllLegal(Empty(start), es) && AllCovering(tier, n, es)
    requires var s := AfterAll(Empty(start), es);
      Crowded(tier, s.created, w) && |BucketsAfter(tier, s.created, w)| < n && NoneGone(tier, s, w)
    ensures Represented(tier, AfterAll(Empty(start), es).active, w)
  {
    CrowdedReached(tier, n, Empty(start), es);
    NoneGoneIsLeft(tier, AfterAll(Empty(start), es), w);
    TierCoverage(es, start, tier, n, w);
  }

  // ------------------------------------------------ the lone snapshot of a bucket

  lemma {:induction false} AfterAppend(s: Target, a: seq<Event>, b: seq<Event>)
    ensures AfterAll(s, a + b) == AfterAll(AfterAll(s, a), b)
    ensures AllLegal(s, a + b) <==> AllLegal(s, a) && AllLegal(AfterAll(s, a), b)
    decreases a
  {
    if a == [] {
      assert a + b == b;
    } else {
      assert (a + b)[0] == a[0] && (a + b)[1..] == a[1..] + b;
      AfterAppend(After(s, a[0]), a[1..], b);
    }
  }

  lemma {:induction false} CreatedStays(s: Target, es: seq<Event>)
    ensures forall c <- s.created :: c in AfterAll(s, es).created
    decreases es
  {
    if es != [] { CreatedStays(After(s, es[0]), es[1..]); }
  }

  lemma LoneTagged(tier: Gfs, xs: seq<Snap>, x: Snap, w: int)
    requires x in xs && Bucket(tier, x.at) == w && forall c <- xs :: Bucket(tier, c.at) == w ==> c == x
    ensures Tagged(tier, xs, w) <==> tier in x.tiers
  {
  }

  lemma LoneRun(tier: Gfs, n: nat, s: Target, e: Event, post: seq<Event>)
    requires Covered(tier, n, s) && e.Job? && Covering(tier, n, e) && e.made.Some? && Legal(s, e)
    requires var x, all := MadeSnap(s.active, e.gfs, e.made.value), AfterAll(After(s, e), post).created;
      forall c <- all :: Bucket(tier, c.at) == Bucket(tier, x.at) ==> c == x
    ensures var m := e.made.value;
      Tagged(tier, AfterAll(After(s, e), post).created, Bucket(tier, m.at))
      <==> SameBucket(tier, m.tierTime, m.at) || !Taken(tier, s.active, m.tierTime)
  {
    var x, u := MadeSnap(s.active, e.gfs, e.made.value), After(s, e);
    var w := Bucket(tier, x.at);
    assert x in u.created;
    CreatedStays(u, post);
    OwnBucketTaggedIff(tier, n, s, e);
    LoneTagged(tier, u.created, x, w);
    LoneTagged(tier, AfterAll(u, post).created, x, w);
  }

  /** And a recent week or month in which one run alone created a snapshot is
      represented exactly if that snapshot has not vanished and the run did not
      straddle the bucket's start, or the earlier bucket had no tagged snapshot at the
      first of its two clock readings. */
  lemma LoneCoverageIff(pre: seq<Event>, e: Event, post: seq<Event>, start: int, tier: Gfs, n: nat)
    requires AllLegal(Empty(start), pre + ([e] + post))
    requires AllCovering(tier, n, pre + ([e] + post)) && e.Job? && e.made.Some?
    requires var created := AfterAll(Empty(start), pre + ([e] + post)).created;
      var x := MadeSnap(AfterAll(Empty(start), pre).active, e.gfs, e.made.value);
      |BucketsAfter(tier, created, Bucket(tier, x.at))| < n
      && forall c <- created :: Bucket(tier, c.at) == Bucket(tier, x.at) ==> c == x
    ensures var m, before := e.made.value, AfterAll(Empty(start), pre).active;
      var s := AfterAll(Empty(start), pre + ([e] + post));
      Represented(tier, s.active, Bucket(tier, m.at))
      <==> MadeSnap(before, e.gfs, m) !in s.gone
           && (SameBucket(tier, m.tierTime, m.at) || !Taken(tier, before, m.tierTime))
  {
    var empty, es := Empty(start), pre + ([e] + post);
    var s := AfterAll(empty, pre);
    AfterAppend(empty, pre, [e] + post);
    assert ([e] + post)[0] == e && ([e] + post)[1..] == post;
    forall p | p in pre ensures Covering(tier, n, p) { assert p in es; }
    assert e in es;
    CoveredReached(tier, n, empty, pre);
    LoneRun(tier, n, s, e, post);
    TierCoverage(es, start, tier, n, Bucket(tier, e.made.value.at));
  }

  // ------------------------------------------------- a straddling run loses a week

  /** Whenever the earlier bucket is taken, a run that straddles the boundary
      creates a snapshot in a bucket without a tagged one. */
  lemma StraddledBucketIsLost(tier: Gfs, n: nat, s: Target, e: Event)
    requires Covered(tier, n, s) && e.Job? && Covering(tier, n, e) && e.made.Some? && Legal(s, e)
    requires Taken(tier, s.active, e.made.value.tierTime) && !Steady(tier, e)
    ensures var w := Bucket(tier, e.made.value.at);
      (exists c <- After(s, e).created :: Bucket(tier, c.at) == w) && !Tagged(tier, After(s, e).active, w)
  {
    CoveredKept(tier, n, s, e);
    OwnBucketTaggedIff(tier, n, s, e);
    assert MadeSnap(s.active, e.gfs, e.made.value) in After(s, e).created;
  }

  const KEEPS: Keeps := Keeps(7, 0, 5, 0)

  const FIRST: Event := Job(KEEPS, true, Some(New("a", "p3auto_1", 10, 20)), {})

  /** Tiers are computed on Sunday at 23:59:59, the row is written on Monday at midnight. */
  const STRADDLING: Event := Job(KEEPS, true, Some(New("b", "p3auto_2", 345599, 345600)), {})

  lemma FirstCovered()
    ensures var s := After(Empty(0), FIRST);
      Covered(Weekly, 5, s) && s.clock == 20 && s.gone == {} && BucketsAfter(Weekly, s.created, 0) == {}
  {
    var s := After(Empty(0), FIRST);
    CoveredKept(Weekly, 5, Empty(0), FIRST);
    assert s.created == [MadeSnap([], true, New("a", "p3auto_1", 10, 20))];
  }

  lemma FirstRun()
    ensures var s := After(Empty(0), FIRST);
      Covered(Weekly, 5, s) && s.clock == 20 && Tagged(Weekly, s.active, 0)
  {
    var s := After(Empty(0), FIRST);
    FirstCovered();
    OwnBucketTaggedIff(Weekly, 5, Empty(0), FIRST);
    NoneGoneIsLeft(Weekly, s, 0);
    RecentIff(Weekly, 5, s, 0);
  }

  lemma TaggedIsTaken(tier: Gfs, active: seq<Snap>, now: int)
    requires Tagged(tier, active, Bucket(tier, now))
    ensures Taken(tier, active, now)
  {
    var a :| a in active && tier in a.tiers && Bucket(tier, a.at) == Bucket(tier, now);
    BucketExact(tier, a.at, now);
  }

  lemma SundayAndMonday()
    ensures Bucket(Weekly, 345599) == 0 && Bucket(Weekly, 345600) == 1 && !SameBucket(Weekly, 345599, 345600)
  {
    BucketExact(Weekly, 345599, 345600);
  }

  /** With `keep_weekly` 5 the second week had a snapshot, yet no weekly one. */
  lemma StraddledWeekIsLost()
    ensures var s := After(Empty(0), FIRST);
      Legal(Empty(0), FIRST) && Legal(s, STRADDLING)
      && (exists c <- After(s, STRADDLING).created :: Week(c.at) == 1)
      && !Tagged(Weekly, After(s, STRADDLING).active, 1)
  {
    FirstRun();
    var s := After(Empty(0), FIRST);
    SundayAndMonday();
    TaggedIsTaken(Weekly, s.active, 345599);
    StraddledBucketIsLost(Weekly, 5, s, STRADDLING);
  }

}
