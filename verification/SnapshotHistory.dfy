/** Whole histories of the snapshot table of one VM, which several jobs may share. */
module SnapshotHistory {
  import opened Options
  import opened Retention
  import opened RetentionRuns
  import opened SnapshotJob

  /** Each table follows from the one before by a run. */
  ghost predicate History(tables: seq<seq<Row>>, runs: seq<Run>)
    decreases runs
  {
    |tables| == |runs| + 1
    && (runs != [] ==> Follows(tables[0], runs[0], tables[1]) && History(tables[1..], runs[1..]))
  }

  /** The clock never goes back, over all jobs. */
  predicate Clocked(runs: seq<Run>, start: int)
  {
    runs != [] ==>
      var made := runs[0].made;
      (made.Some? ==> start <= made.value.tierTime <= made.value.at && start < made.value.at)
      && Clocked(runs[1..], ClockAfter(runs[0], start))
  }

  function AllEvents(runs: seq<Run>, job: string): seq<Event>
  {
    if runs == [] then [] else Events(runs[0], job) + AllEvents(runs[1..], job)
  }

  /** What is active depends on what was active alone. */
  lemma {:induction false} ActiveAlone(s: Target, t: Target, es: seq<Event>)
    requires s.active == t.active
    ensures AfterAll(s, es).active == AfterAll(t, es).active
    decreases es
  {
    if es != [] { ActiveAlone(After(s, es[0]), After(t, es[0]), es[1..]); }
  }

  /** A job's active rows are what its history of events leaves. */
  lemma {:induction false} TableFollowsEvents(tables: seq<seq<Row>>, runs: seq<Run>, job: string, s: Target)
    requires History(tables, runs) && s.active == ActiveOf(tables[0], job)
    ensures ActiveOf(tables[|runs|], job) == AfterAll(s, AllEvents(runs, job)).active
    decreases runs
  {
    if runs != [] {
      var first, next := Events(runs[0], job), AfterAll(s, Events(runs[0], job));
      assert FollowsFor(tables[0], runs[0], tables[1], job);
      ActiveAlone(s, FromActive(ActiveOf(tables[0], job)), first);
      TableFollowsEvents(tables[1..], runs[1..], job, next);
      AfterAppend(s, first, AllEvents(runs[1..], job));
      assert tables[1..][|runs| - 1] == tables[|runs|];
    }
  }

  function ClockAfter(run: Run, start: int): int
  {
    if run.made.Some? then run.made.value.at else start
  }

  lemma OneLegal(s: Target, e: Event)
    ensures AllLegal(s, [e]) <==> Legal(s, e)
  {
    assert [e][1..] == [];
  }

  lemma EventsLegal(s: Target, run: Run, job: string, start: int)
    requires s.clock <= start
    requires run.made.Some? ==>
      start <= run.made.value.tierTime <= run.made.value.at && start < run.made.value.at
    ensures AllLegal(s, Events(run, job)) && AfterAll(s, Events(run, job)).clock <= ClockAfter(run, start)
  {
    var gone := if run.gone == {} then [] else [Gone(run.gone)];
    var own := if run.job == job then [Job(run.keeps, run.gfs, run.made, run.failed)] else [];
    var mid := AfterAll(s, gone);
    AfterAppend(s, gone, own);
    if run.gone != {} {
      AfterOne(s, Gone(run.gone));
      OneLegal(s, Gone(run.gone));
    }
    assert mid.clock == s.clock;
    if run.job == job {
      AfterOne(mid, own[0]);
      OneLegal(mid, own[0]);
    }
  }

  lemma {:induction false} HistoryLegal(s: Target, runs: seq<Run>, job: string, start: int)
    requires s.clock <= start && Clocked(runs, start)
    ensures AllLegal(s, AllEvents(runs, job))
    decreases runs
  {
    if runs != [] {
      EventsLegal(s, runs[0], job, start);
      HistoryLegal(AfterAll(s, Events(runs[0], job)), runs[1..], job, ClockAfter(runs[0], start));
      AfterAppend(s, Events(runs[0], job), AllEvents(runs[1..], job));
    }
  }

  /** After any number of runs of any jobs, whatever vanished, failed or was refused:
      two active rows of one job tagged weekly in one ISO week, or monthly in one
      month, are the same row. */
  lemma RowsUnique(tables: seq<seq<Row>>, runs: seq<Run>, start: int, job: string, tier: Gfs, a: Row, b: Row)
    requires History(tables, runs) && tables[0] == [] && Clocked(runs, start) && WellFormed(tables[|runs|])
    requires a in tables[|runs|] && a.status == Active && a.job == job && tier in a.tiers
    requires b in tables[|runs|] && b.status == Active && b.job == job && tier in b.tiers
    requires SameBucket(tier, a.at, b.at)
    ensures a == b
  {
    var empty, es := Empty(start), AllEvents(runs, job);
    TableFollowsEvents(tables, runs, job, empty);
    HistoryLegal(empty, runs, job, start);
    ActiveListed(tables[|runs|], job);
    TierUniqueness(es, start, tier, AsSnap(a), AsSnap(b));
    SameId(tables[|runs|], a, b);
  }

  /** The runs that coverage is promised for: the job's own runs keep enough of the tier. */
  predicate AllCover(tier: Gfs, n: nat, runs: seq<Run>, job: string)
  {
    forall run <- runs :: run.job == job ==> run.gfs && KeepsFor(tier, run.keeps) >= n
  }

  lemma {:induction false} EventsCover(tier: Gfs, n: nat, runs: seq<Run>, job: string)
    requires AllCover(tier, n, runs, job)
    ensures AllCovering(tier, n, AllEvents(runs, job))
  {
    if runs != [] {
      assert runs[0] in runs;
      EventsCover(tier, n, runs[1..], job);
    }
  }

  /** After any number of such runs, whatever vanished, failed or was refused: a week
      or month with fewer than `n` later ones is represented among the job's active
      rows by exactly one tagged row if and only if some snapshot created in it was
      tagged and has not vanished. */
  lemma RowsCover(tables: seq<seq<Row>>, runs: seq<Run>, start: int, job: string, tier: Gfs, n: nat, w: int)
    requires History(tables, runs) && tables[0] == [] && Clocked(runs, start)
    requires AllCover(tier, n, runs, job)
    requires |BucketsAfter(tier, AfterAll(Empty(start), AllEvents(runs, job)).created, w)| < n
    ensures Represented(tier, ActiveOf(tables[|runs|], job), w)
       <==> Left(tier, AfterAll(Empty(start), AllEvents(runs, job)), w)
  {
    TableFollowsEvents(tables, runs, job, Empty(start));
    HistoryLegal(Empty(start), runs, job, start);
    EventsCover(tier, n, runs, job);
    TierCoverage(AllEvents(runs, job), start, tier, n, w);
  }

  /** After such runs a recent week or month in which the job created two snapshots, none
      of which vanished, is
      represented among its active rows by exactly one tagged row. */
  lemma RowsCrowded(tables: seq<seq<Row>>, runs: seq<Run>, start: int, job: string, tier: Gfs, n: nat, w: int)
    requires History(tables, runs) && tables[0] == [] && Clocked(runs, start)
    requires AllCover(tier, n, runs, job)
    requires var s := AfterAll(Empty(start), AllEvents(runs, job));
      Crowded(tier, s.created, w) && |BucketsAfter(tier, s.created, w)| < n && NoneGone(tier, s, w)
    ensures Represented(tier, ActiveOf(tables[|runs|], job), w)
  {
    TableFollowsEvents(tables, runs, job, Empty(start));
    HistoryLegal(Empty(start), runs, job, start);
    EventsCover(tier, n, runs, job);
    CrowdedCoverage(AllEvents(runs, job), start, tier, n, w);
  }
}
