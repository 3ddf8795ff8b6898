/** The snapshot table and the hypervisor's snapshots of one VM, and the steps a
    job run takes on them: resync, create with retry, rotate. */
module SnapshotJob {
  import opened Options
  import opened Retention
  import opened RetentionRuns

  datatype Status = Active | DeletedExternally | Rotated

  datatype Row = Row(id: string, job: string, name: string, at: int, tiers: seq<Tier>, status: Status)

  /** What the hypervisor answers to a create call. */
  datatype Answer = Created | Locked | AlreadyExists | Refused

  datatype Outcome = Recorded(name: string) | SkippedLocked | CreateFailed | Aborted(name: string)

  const PREFIX := "p3auto_"

  // -------------------------------------------------------------------- tables

  predicate IdsDiffer(rows: seq<Row>)
  {
    forall i, j :: 0 <= i < j < |rows| ==> rows[i].id != rows[j].id
  }

  /** The UNIQUE constraint of the table, which covers rotated rows too. */
  predicate NamesDiffer(rows: seq<Row>)
  {
    forall i, j :: 0 <= i < j < |rows| ==> rows[i].name != rows[j].name
  }

  predicate Ascending(rows: seq<Row>)
  {
    forall i, j :: 0 <= i < j < |rows| ==> rows[i].at < rows[j].at
  }

  predicate WellFormed(rows: seq<Row>)
  {
    IdsDiffer(rows) && NamesDiffer(rows) && Ascending(rows)
  }

  /** Every active row names an existing snapshot. */
  predicate Agree(rows: seq<Row>, names: set<string>)
  {
    forall r <- rows :: r.status == Active ==> r.name in names
  }

  function AsSnap(r: Row): Snap { Snap(r.id, r.name, r.at, r.tiers) }

  /** The active rows of a job, newest first. */
  function ActiveOf(rows: seq<Row>, job: string): seq<Snap>
  {
    if rows == [] then []
    else
      var last, rest := rows[|rows| - 1], ActiveOf(rows[..|rows| - 1], job);
      if last.status == Active && last.job == job then [AsSnap(last)] + rest else rest
  }

  predicate Descending(xs: seq<Snap>)
  {
    forall i, j :: 0 <= i < j < |xs| ==> xs[i].at > xs[j].at
  }

  function EachRow(f: Row -> Row, rows: seq<Row>): seq<Row>
  {
    seq(|rows|, i requires 0 <= i < |rows| => f(rows[i]))
  }

  function SyncRow(present: set<string>): Row -> Row
  {
    (r: Row) => if r.status == Active && r.name !in present then r.(status := DeletedExternally) else r
  }

  function MarkRow(ids: set<string>): Row -> Row
  {
    (r: Row) => if r.status == Active && r.id in ids then r.(status := Rotated) else r
  }

  /** The table after the resync against the names the hypervisor reports. */
  function Synced(rows: seq<Row>, present: set<string>): seq<Row>
  {
    EachRow(SyncRow(present), rows)
  }

  /** The table after `mark_snapshots_rotated`. */
  function Marked(rows: seq<Row>, ids: set<string>): seq<Row>
  {
    EachRow(MarkRow(ids), rows)
  }

  function ActiveNames(rows: seq<Row>): set<string>
  {
    set r <- rows | r.status == Active :: r.name
  }

  function RowIds(rows: seq<Row>): set<string>
  {
    set r <- rows :: r.id
  }

  function RowNames(rows: seq<Row>): set<string>
  {
    set r <- rows :: r.name
  }

  lemma EachRowAgrees(f: Row -> Row, g: Row -> Row, rows: seq<Row>)
    requires forall r <- rows :: f(r) == g(r)
    ensures EachRow(f, rows) == EachRow(g, rows)
  {
    forall i | 0 <= i < |rows| ensures EachRow(f, rows)[i] == EachRow(g, rows)[i] {
      assert rows[i] in rows;
    }
  }

  lemma EachRowSame(f: Row -> Row, rows: seq<Row>)
    requires forall r <- rows :: f(r) == r
    ensures EachRow(f, rows) == rows
  {
    forall i | 0 <= i < |rows| ensures EachRow(f, rows)[i] == rows[i] {
      assert rows[i] in rows;
    }
  }

  lemma EachRowHas(f: Row -> Row, rows: seq<Row>, r: Row)
    requires r in EachRow(f, rows)
    ensures exists q <- rows :: f(q) == r
  {
    var i :| 0 <= i < |rows| && EachRow(f, rows)[i] == r;
    assert rows[i] in rows;
  }

  // ---------------------------------------------------- what listing gives

  /** `list_active_snapshots` really lists the active rows, newest first. */
  lemma {:induction false} ActiveListed(rows: seq<Row>, job: string)
    requires Ascending(rows)
    ensures forall s :: s in ActiveOf(rows, job) <==>
      exists r <- rows :: r.status == Active && r.job == job && s == AsSnap(r)
    ensures Descending(ActiveOf(rows, job))
  {
    if rows != [] {
      var front, last := rows[..|rows| - 1], rows[|rows| - 1];
      ActiveListed(front, job);
      assert rows == front + [last];
      var rest := ActiveOf(front, job);
      forall s | s in rest ensures s.at < last.at {
        var r :| r in front && r.status == Active && r.job == job && s == AsSnap(r);
        var i :| 0 <= i < |front| && front[i] == r;
        assert rows[i] == r;
      }
      if last.status == Active && last.job == job { NewestFirst(AsSnap(last), rest); }
    }
  }

  lemma NewestFirst(x: Snap, rest: seq<Snap>)
    requires Descending(rest) && forall s <- rest :: s.at < x.at
    ensures Descending([x] + rest)
  {
    var xs := [x] + rest;
    forall i, j | 0 <= i < j < |xs| ensures xs[i].at > xs[j].at {
      assert xs[j] == rest[j - 1] && rest[j - 1] in rest;
      assert i > 0 ==> xs[i] == rest[i - 1];
    }
  }

  lemma {:induction false} ActiveOfEach(rows: seq<Row>, job: string, f: Row -> Row, keep: set<string>)
    requires forall r <- rows | r.status == Active && r.job == job ::
      if r.id in keep then f(r) == r else f(r).status != Active
    requires forall r <- rows | r.status != Active || r.job != job :: f(r).status != Active || f(r).job != job
    ensures ActiveOf(EachRow(f, rows), job) == Only(ActiveOf(rows, job), keep)
  {
    if rows != [] {
      var front, last := rows[..|rows| - 1], rows[|rows| - 1];
      assert rows == front + [last];
      ActiveOfEach(front, job, f, keep);
      var mapped := EachRow(f, rows);
      assert mapped[..|mapped| - 1] == EachRow(f, front);
      assert last in rows;
      if last.status == Active && last.job == job {
        var xs := ActiveOf(rows, job);
        assert xs[0] == AsSnap(last) && xs[1..] == ActiveOf(front, job);
      }
    }
  }

  lemma ActiveOfSnoc(rows: seq<Row>, r: Row, job: string)
    ensures ActiveOf(rows + [r], job)
         == if r.status == Active && r.job == job then [AsSnap(r)] + ActiveOf(rows, job) else ActiveOf(rows, job)
  {
    assert (rows + [r])[..|rows|] == rows;
  }

  /** Filtering by two sets that agree on the ids at hand is the same. */
  lemma {:induction false} OnlyAgree(xs: seq<Snap>, a: set<string>, b: set<string>)
    requires forall s <- xs :: s.id in a <==> s.id in b
    ensures Only(xs, a) == Only(xs, b)
  {
    if xs != [] {
      assert xs[0] in xs;
      OnlyAgree(xs[1..], a, b);
    }
  }

  lemma {:induction false} OnlyAll(xs: seq<Snap>, ids: set<string>)
    requires forall s <- xs :: s.id in ids
    ensures Only(xs, ids) == xs
  {
    if xs != [] {
      assert xs[0] in xs;
      OnlyAll(xs[1..], ids);
      assert xs == [xs[0]] + xs[1..];
    }
  }

  lemma SameName(rows: seq<Row>, a: Row, b: Row)
    requires NamesDiffer(rows) && a in rows && b in rows && a.name == b.name
    ensures a == b
  {
    var i :| 0 <= i < |rows| && rows[i] == a;
    var j :| 0 <= j < |rows| && rows[j] == b;
    assert i == j;
  }

  lemma SameId(rows: seq<Row>, a: Row, b: Row)
    requires IdsDiffer(rows) && a in rows && b in rows && a.id == b.id
    ensures a == b
  {
    var i :| 0 <= i < |rows| && rows[i] == a;
    var j :| 0 <= j < |rows| && rows[j] == b;
    assert i == j;
  }

  // -------------------------------------------------------------------- resync

  /** The ids the resync takes out of a job's active rows. */
  function Vanished(rows: seq<Row>, present: set<string>): set<string>
  {
    set r <- rows | r.status == Active && r.name !in present :: r.id
  }

  /** For each job the resync is the disappearance of the rows without a snapshot. */
  lemma SyncIsGone(rows: seq<Row>, present: set<string>, job: string)
    requires WellFormed(rows)
    ensures var xs := ActiveOf(rows, job);
      ActiveOf(Synced(rows, present), job) == Only(xs, Ids(xs) - Vanished(rows, present))
  {
    var xs := ActiveOf(rows, job);
    var keep := Ids(xs) - Vanished(rows, present);
    ActiveListed(rows, job);
    forall r | r in rows && r.status == Active && r.job == job
      ensures if r.id in keep then SyncRow(present)(r) == r else SyncRow(present)(r).status != Active
    {
      assert AsSnap(r) in xs;
      assert r.id in Ids(xs);
      if r.id in Vanished(rows, present) {
        var q :| q in rows && q.status == Active && q.name !in present && q.id == r.id;
        SameId(rows, q, r);
      }
    }
    ActiveOfEach(rows, job, SyncRow(present), keep);
  }

  lemma SyncAgrees(rows: seq<Row>, present: set<string>)
    ensures Agree(Synced(rows, present), present)
  {
    forall r | r in Synced(rows, present) && r.status == Active ensures r.name in present {
      EachRowHas(SyncRow(present), rows, r);
    }
  }

  lemma EachKeepsNames(f: Row -> Row, rows: seq<Row>)
    requires forall r <- rows :: f(r).id == r.id && f(r).name == r.name
    ensures RowIds(EachRow(f, rows)) == RowIds(rows) && RowNames(EachRow(f, rows)) == RowNames(rows)
  {
    var after := EachRow(f, rows);
    forall r | r in rows ensures r.id in RowIds(after) && r.name in RowNames(after) {
      var i :| 0 <= i < |rows| && rows[i] == r;
      assert after[i] == f(r) && after[i] in after;
    }
    forall r | r in after ensures r.id in RowIds(rows) && r.name in RowNames(rows) {
      EachRowHas(f, rows, r);
    }
  }

  lemma EachKeepsOrder(f: Row -> Row, rows: seq<Row>)
    requires forall i :: 0 <= i < |rows| ==>
      f(rows[i]).id == rows[i].id && f(rows[i]).name == rows[i].name && f(rows[i]).at == rows[i].at
    requires WellFormed(rows)
    ensures WellFormed(EachRow(f, rows))
  {
  }

  lemma EachKeepsShape(f: Row -> Row, rows: seq<Row>)
    requires forall r: Row :: f(r).id == r.id && f(r).name == r.name && f(r).at == r.at
    requires WellFormed(rows)
    ensures WellFormed(EachRow(f, rows))
    ensures RowIds(EachRow(f, rows)) == RowIds(rows) && RowNames(EachRow(f, rows)) == RowNames(rows)
  {
    EachKeepsOrder(f, rows);
    EachKeepsNames(f, rows);
  }

  // ------------------------------------------------------------- the create loop

  /** A name that exists cannot be created. */
  function Effective(names: set<string>, name: string, a: Answer): Answer
  {
    if a == Created && name in names then AlreadyExists else a
  }

  /** The name that is really created, or why none is: an existing name is
      retried once, with seconds in it. */
  function Attempt(names: set<string>, name: string, retry: string, first: Answer, second: Answer): Outcome
  {
    match Effective(names, name, first)
    case Created => Recorded(name)
    case Locked => SkippedLocked
    case Refused => CreateFailed
    case AlreadyExists =>
      match Effective(names, retry, second)
      case Created => Recorded(retry)
      case Locked => SkippedLocked
      case _ => CreateFailed
  }

  /** The hypervisor reports the name as taken, or it is and the report is overtaken. */
  predicate NameThere(first: Answer, name: string, names: set<string>)
  {
    first == AlreadyExists || (first == Created && name in names)
  }

  function NewRow(id: string, job: string, name: string, at: int, tiers: seq<Tier>): Row
  {
    Row(id, job, name, at, tiers, Active)
  }

  /** The table after a create attempt. */
  function WithNew(rows: seq<Row>, job: string, n: New, gfs: bool): seq<Row>
  {
    rows + [NewRow(n.id, job, n.name, n.at, Tiers(ActiveOf(rows, job), gfs, n.tierTime))]
  }

  lemma WithNewShape(rows: seq<Row>, job: string, n: New, gfs: bool)
    requires WellFormed(rows) && n.id !in RowIds(rows) && n.name !in RowNames(rows) && forall r <- rows :: r.at < n.at
    ensures WellFormed(WithNew(rows, job, n, gfs))
  {
    SnocShape(rows, WithNew(rows, job, n, gfs)[|rows|]);
  }

  lemma SnocShape(rows: seq<Row>, r: Row)
    requires WellFormed(rows) && r.id !in RowIds(rows) && r.name !in RowNames(rows) && forall q <- rows :: q.at < r.at
    ensures WellFormed(rows + [r])
  {
    forall i | 0 <= i < |rows| ensures rows[i].id != r.id && rows[i].name != r.name && rows[i].at < r.at {
      assert rows[i] in rows && rows[i].id in RowIds(rows) && rows[i].name in RowNames(rows);
    }
  }

  // ------------------------------------------------------------------- rotation

  /** The ids that rotation deletes: reached, not kept, existing, and not failing. */
  function Deleted(listed: seq<Snap>, k: Keeps, names: set<string>, failing: set<string>): set<string>
  {
    DeletedIn(Only(listed, Ids(listed) - Keep(listed, k)), names, failing)
  }

  function DeletedIn(xs: seq<Snap>, names: set<string>, failing: set<string>): set<string>
  {
    set s <- xs | s.name in names && s.name !in failing :: s.id
  }

  function NamesIn(xs: seq<Snap>, names: set<string>, failing: set<string>): set<string>
  {
    set s <- xs | s.name in names && s.name !in failing :: s.name
  }

  /** Of the listed snapshots those stay active that are kept, do not exist or cannot be
      deleted; all of them if the run ends before. */
  predicate Stays(listed: seq<Snap>, left: seq<Snap>, k: Keeps, ended: bool, names: set<string>, failing: set<string>)
  {
    forall s <- listed :: s in left <==> s.id in Keep(listed, k) || ended || s.name !in names || s.name in failing
  }

  function CreatedName(r: Outcome): set<string>
  {
    if r.Recorded? || r.Aborted? then {r.name} else {}
  }

  lemma NothingDropped(xs: seq<Snap>, k: Keeps)
    requires Only(xs, Ids(xs) - Keep(xs, k)) == []
    ensures forall s <- xs :: s.id in Keep(xs, k)
  {
    OnlyMembers(xs, Ids(xs) - Keep(xs, k));
  }

  /** An active snapshot of the job survives rotation exactly if it is kept, does not
      exist or cannot be deleted. */
  lemma StaysIff(rows: seq<Row>, job: string, k: Keeps, names: set<string>, failing: set<string>)
    requires WellFormed(rows)
    ensures var xs := ActiveOf(rows, job);
      forall s <- xs :: s in ActiveOf(Marked(rows, Deleted(xs, k, names, failing)), job) <==>
        s.id in Keep(xs, k) || s.name !in names || s.name in failing
  {
    var xs := ActiveOf(rows, job);
    var gone := Deleted(xs, k, names, failing);
    forall id | id in gone ensures id in Ids(xs) - Keep(xs, k) { DeletedIsDropped(xs, k, names, failing, id); }
    MarkedRemains(rows, job, k, gone);
    OnlyMembers(xs, Keep(xs, k) + (Ids(xs) - Keep(xs, k) - gone));
    forall s | s in xs ensures s.id in gone <==> s.id !in Keep(xs, k) && s.name in names && s.name !in failing {
      OnlyMembers(xs, Ids(xs) - Keep(xs, k));
      if s.id in gone { DeletedById(rows, job, k, names, failing, s); }
    }
  }

  lemma DeletedById(rows: seq<Row>, job: string, k: Keeps, names: set<string>, failing: set<string>, s: Snap)
    requires WellFormed(rows) && s in ActiveOf(rows, job) && s.id in Deleted(ActiveOf(rows, job), k, names, failing)
    ensures s.id !in Keep(ActiveOf(rows, job), k) && s.name in names && s.name !in failing
  {
    DeletedIsDropped(ActiveOf(rows, job), k, names, failing, s.id);
    var t :| t in ActiveOf(rows, job) && t.id == s.id && t.name in names && t.name !in failing;
    ActiveListed(rows, job);
    var p :| p in rows && p.status == Active && p.job == job && s == AsSnap(p);
    var q :| q in rows && q.status == Active && q.job == job && t == AsSnap(q);
    SameId(rows, p, q);
  }

  lemma DeletedIsDropped(listed: seq<Snap>, k: Keeps, names: set<string>, failing: set<string>, id: string)
    requires id in Deleted(listed, k, names, failing)
    ensures exists s <- listed :: s.id == id && s.id !in Keep(listed, k) && s.name in names && s.name !in failing
  {
    OnlyMembers(listed, Ids(listed) - Keep(listed, k));
  }

  /** Marking what was deleted leaves a job what retention says remains, when the
      dropped rows that were not deleted count as failed. */
  lemma MarkedRemains(rows: seq<Row>, job: string, k: Keeps, rotated: set<string>)
    requires WellFormed(rows) && rotated <= Ids(ActiveOf(rows, job)) - Keep(ActiveOf(rows, job), k)
    ensures var xs := ActiveOf(rows, job);
      ActiveOf(Marked(rows, rotated), job) == Remaining(xs, k, Ids(xs) - Keep(xs, k) - rotated)
  {
    var xs := ActiveOf(rows, job);
    var keep := Ids(xs) - rotated;
    ActiveListed(rows, job);
    forall r | r in rows && r.status == Active && r.job == job
      ensures if r.id in keep then MarkRow(rotated)(r) == r else MarkRow(rotated)(r).status != Active
    {
      assert AsSnap(r) in xs;
    }
    ActiveOfEach(rows, job, MarkRow(rotated), keep);
    OnlyAgree(xs, keep, Keep(xs, k) + (Ids(xs) - Keep(xs, k) - rotated));
  }

  lemma MarkedSparesOthers(rows: seq<Row>, job: string, other: string, rotated: set<string>)
    requires WellFormed(rows) && other != job && rotated <= Ids(ActiveOf(rows, job))
    ensures ActiveOf(Marked(rows, rotated), other) == ActiveOf(rows, other)
  {
    var xs := ActiveOf(rows, other);
    ActiveListed(rows, job);
    ActiveListed(rows, other);
    forall r | r in rows && r.status == Active && r.job == other ensures r.id !in rotated && r.id in Ids(xs) {
      assert AsSnap(r) in xs;
      if r.id in rotated {
        var s :| s in ActiveOf(rows, job) && s.id == r.id;
        var q :| q in rows && q.status == Active && q.job == job && s == AsSnap(q);
        SameId(rows, q, r);
      }
    }
    ActiveOfEach(rows, other, MarkRow(rotated), Ids(xs));
    OnlyAll(xs, Ids(xs));
  }

  lemma ListedNamesDiffer(rows: seq<Row>, job: string, a: Snap, b: Snap)
    requires WellFormed(rows) && a in ActiveOf(rows, job) && b in ActiveOf(rows, job) && a.name == b.name
    ensures a == b
  {
    ActiveListed(rows, job);
    var p :| p in rows && p.status == Active && p.job == job && a == AsSnap(p);
    var q :| q in rows && q.status == Active && q.job == job && b == AsSnap(q);
    SameName(rows, p, q);
  }

  /** Deleting the snapshots of the rows that are marked keeps the agreement. */
  lemma RotationAgrees(rows: seq<Row>, job: string, xs: seq<Snap>, names: set<string>, failing: set<string>)
    requires WellFormed(rows) && Agree(rows, names) && forall s <- xs :: s in ActiveOf(rows, job)
    ensures Agree(Marked(rows, DeletedIn(xs, names, failing)), names - NamesIn(xs, names, failing))
  {
    var rotated := DeletedIn(xs, names, failing);
    ActiveListed(rows, job);
    forall r | r in Marked(rows, rotated) && r.status == Active ensures r.name in names - NamesIn(xs, names, failing) {
      EachRowHas(MarkRow(rotated), rows, r);
      var q :| q in rows && MarkRow(rotated)(q) == r;
      assert q.status == Active && q.id !in rotated;
      forall s | s in xs && s.name == q.name ensures s.id == q.id {
        var p :| p in rows && p.status == Active && p.job == job && s == AsSnap(p);
        SameName(rows, p, q);
      }
    }
  }

  lemma NamesOfDeleted(rows: seq<Row>, job: string, xs: seq<Snap>, names: set<string>, failing: set<string>)
    requires WellFormed(rows) && forall s <- xs :: s in ActiveOf(rows, job)
    ensures NamesIn(xs, names, failing)
         == set s <- ActiveOf(rows, job) | s.id in DeletedIn(xs, names, failing) :: s.name
  {
    var listed := ActiveOf(rows, job);
    ActiveListed(rows, job);
    forall s | s in listed && s.id in DeletedIn(xs, names, failing) ensures s.name in NamesIn(xs, names, failing) {
      var t :| t in xs && t.name in names && t.name !in failing && t.id == s.id;
      var p :| p in rows && p.status == Active && p.job == job && s == AsSnap(p);
      var q :| q in rows && q.status == Active && q.job == job && t == AsSnap(q);
      SameId(rows, p, q);
    }
  }

  // ------------------------------------------------------------------ a whole run

  /** The table a run starts from once it has resynced, if it could read the names. */
  function Resynced(rows: seq<Row>, names: set<string>, readable: bool): seq<Row>
  {
    if readable then Synced(rows, names) else rows
  }

  function CreatedIn(r: Outcome, n: New): Option<New>
  {
    if r.Recorded? then Some(n.(name := r.name)) else None
  }

  function WithOutcome(rows: seq<Row>, job: string, n: New, gfs: bool, r: Outcome): seq<Row>
  {
    if r.Recorded? then WithNew(rows, job, n.(name := r.name), gfs) else rows
  }

  lemma ResyncedShape(rows: seq<Row>, names: set<string>, readable: bool)
    requires WellFormed(rows)
    ensures WellFormed(Resynced(rows, names, readable))
    ensures RowIds(Resynced(rows, names, readable)) == RowIds(rows)
  {
    if readable { EachKeepsShape(SyncRow(names), rows); }
  }

  lemma ResyncedRow(rows: seq<Row>, names: set<string>, readable: bool, r: Row)
    requires r in Resynced(rows, names, readable)
    ensures exists q <- rows :: q.at == r.at
    ensures r.status == Active ==> r in rows
  {
    if readable { EachRowHas(SyncRow(names), rows, r); }
  }

  /** What holds between the two halves of a run. */
  lemma BaseShape(rows: seq<Row>, names: set<string>, readable: bool, job: string, n: New, gfs: bool, r: Outcome)
    requires WellFormed(rows) && n.id !in RowIds(rows) && forall q <- rows :: q.at < n.at
    requires r.Recorded? ==> r.name !in RowNames(Resynced(rows, names, readable))
    ensures WellFormed(WithOutcome(Resynced(rows, names, readable), job, n, gfs, r))
  {
    var synced := Resynced(rows, names, readable);
    ResyncedShape(rows, names, readable);
    if r.Recorded? {
      forall q | q in synced ensures q.at < n.at { ResyncedRow(rows, names, readable, q); }
      WithNewShape(synced, job, n.(name := r.name), gfs);
    }
  }

  lemma BaseAgrees(rows: seq<Row>, names: set<string>, readable: bool, job: string, n: New, gfs: bool, r: Outcome,
                   after: set<string>)
    requires readable || Agree(rows, names)
    requires names <= after && (r.Recorded? ==> r.name in after)
    ensures Agree(WithOutcome(Resynced(rows, names, readable), job, n, gfs, r), after)
  {
    if readable { SyncAgrees(rows, names); }
  }

  /** What one run means for the histories of the jobs that use the VM: the rows that
      vanished, then for its own job the snapshot that was created and retention, in
      which the dropped snapshots that were not deleted count as failed. */
  datatype Run = Run(job: string, gone: set<string>, keeps: Keeps, gfs: bool, made: Option<New>, failed: set<string>)

  function Events(run: Run, job: string): seq<Event>
  {
    (if run.gone == {} then [] else [Gone(run.gone)])
    + (if run.job == job then [Job(run.keeps, run.gfs, run.made, run.failed)] else [])
  }

  function RunOf(rows: seq<Row>, names: set<string>, readable: bool, job: string, n: New, gfs: bool, r: Outcome,
                 k: Keeps, rotated: set<string>): Run
  {
    var xs := ActiveOf(WithOutcome(Resynced(rows, names, readable), job, n, gfs, r), job);
    Run(job, if readable then Vanished(rows, names) else {}, k, gfs, CreatedIn(r, n), Ids(xs) - Keep(xs, k) - rotated)
  }

  /** The table after a run holds for one job what its events make of the table before. */
  predicate FollowsFor(rows: seq<Row>, run: Run, after: seq<Row>, job: string)
  {
    ActiveOf(after, job) == AfterAll(FromActive(ActiveOf(rows, job)), Events(run, job)).active
  }

  ghost predicate Follows(rows: seq<Row>, run: Run, after: seq<Row>)
  {
    forall job: string :: FollowsFor(rows, run, after, job)
  }

  lemma AfterOne(s: Target, e: Event)
    ensures AfterAll(s, [e]) == After(s, e)
  {
    assert [e][1..] == [];
  }

  lemma AfterTwo(s: Target, a: Event, b: Event)
    ensures AfterAll(s, [a] + [b]) == After(After(s, a), b)
  {
    assert ([a] + [b])[1..] == [b];
    AfterOne(After(s, a), b);
  }

  lemma EventsOf(s: Target, run: Run, job: string)
    ensures AfterAll(s, Events(run, job)).active
         == if run.job == job then After(After(s, Gone(run.gone)), Job(run.keeps, run.gfs, run.made, run.failed)).active
            else After(s, Gone(run.gone)).active
  {
    var own := Job(run.keeps, run.gfs, run.made, run.failed);
    OnlyAll(s.active, Ids(s.active) - {});
    if run.gone == {} {
      assert After(s, Gone({})).active == s.active;
      assert [] + [own] == [own];
      AfterOne(s, own);
    } else {
      assert [Gone(run.gone)] + [] == [Gone(run.gone)];
      AfterOne(s, Gone(run.gone));
      AfterTwo(s, Gone(run.gone), own);
    }
  }

  lemma ResyncedIsGone(rows: seq<Row>, names: set<string>, readable: bool, job: string)
    requires WellFormed(rows)
    ensures var xs := ActiveOf(rows, job);
      ActiveOf(Resynced(rows, names, readable), job)
      == Only(xs, Ids(xs) - (if readable then Vanished(rows, names) else {}))
  {
    var xs := ActiveOf(rows, job);
    if readable { SyncIsGone(rows, names, job); } else { OnlyAll(xs, Ids(xs) - {}); }
  }

  lemma RunFollowsFor(rows: seq<Row>, names: set<string>, readable: bool, job: string, n: New, gfs: bool, r: Outcome,
                      k: Keeps, rotated: set<string>, other: string)
    requires WellFormed(rows)
    requires var base := WithOutcome(Resynced(rows, names, readable), job, n, gfs, r);
      WellFormed(base) && rotated <= Ids(ActiveOf(base, job)) - Keep(ActiveOf(base, job), k)
    ensures FollowsFor(rows, RunOf(rows, names, readable, job, n, gfs, r, k, rotated),
                       Marked(WithOutcome(Resynced(rows, names, readable), job, n, gfs, r), rotated), other)
  {
    EventsOf(FromActive(ActiveOf(rows, other)), RunOf(rows, names, readable, job, n, gfs, r, k, rotated), other);
    if other == job {
      OwnStep(rows, names, readable, job, n, gfs, r, k, rotated);
    } else {
      ResyncedIsGone(rows, names, readable, other);
      OtherStep(rows, names, readable, job, n, gfs, r, rotated, other);
    }
  }

  lemma RunFollows(rows: seq<Row>, names: set<string>, readable: bool, job: string, n: New, gfs: bool, r: Outcome,
                   k: Keeps, rotated: set<string>)
    requires WellFormed(rows)
    requires var base := WithOutcome(Resynced(rows, names, readable), job, n, gfs, r);
      WellFormed(base) && rotated <= Ids(ActiveOf(base, job)) - Keep(ActiveOf(base, job), k)
    ensures Follows(rows, RunOf(rows, names, readable, job, n, gfs, r, k, rotated),
                    Marked(WithOutcome(Resynced(rows, names, readable), job, n, gfs, r), rotated))
  {
    forall j: string
      ensures FollowsFor(rows, RunOf(rows, names, readable, job, n, gfs, r, k, rotated),
                         Marked(WithOutcome(Resynced(rows, names, readable), job, n, gfs, r), rotated), j)
    {
      RunFollowsFor(rows, names, readable, job, n, gfs, r, k, rotated, j);
    }
  }

  lemma OwnStep(rows: seq<Row>, names: set<string>, readable: bool, job: string, n: New, gfs: bool, r: Outcome,
                k: Keeps, rotated: set<string>)
    requires WellFormed(rows)
    requires var base := WithOutcome(Resynced(rows, names, readable), job, n, gfs, r);
      WellFormed(base) && rotated <= Ids(ActiveOf(base, job)) - Keep(ActiveOf(base, job), k)
    ensures var run := RunOf(rows, names, readable, job, n, gfs, r, k, rotated);
      ActiveOf(Marked(WithOutcome(Resynced(rows, names, readable), job, n, gfs, r), rotated), job)
      == After(After(FromActive(ActiveOf(rows, job)), Gone(run.gone)), Job(k, gfs, run.made, run.failed)).active
  {
    var synced := Resynced(rows, names, readable);
    ResyncedIsGone(rows, names, readable, job);
    if r.Recorded? {
      ActiveOfSnoc(synced, WithNew(synced, job, n.(name := r.name), gfs)[|synced|], job);
    } else {
      assert [] + ActiveOf(synced, job) == ActiveOf(synced, job);
    }
    MarkedRemains(WithOutcome(synced, job, n, gfs, r), job, k, rotated);
  }

  lemma OtherStep(rows: seq<Row>, names: set<string>, readable: bool, job: string, n: New, gfs: bool, r: Outcome,
                  rotated: set<string>, other: string)
    requires other != job
    requires var base := WithOutcome(Resynced(rows, names, readable), job, n, gfs, r);
      WellFormed(base) && rotated <= Ids(ActiveOf(base, job))
    ensures ActiveOf(Marked(WithOutcome(Resynced(rows, names, readable), job, n, gfs, r), rotated), other)
         == ActiveOf(Resynced(rows, names, readable), other)
  {
    var synced := Resynced(rows, names, readable);
    MarkedSparesOthers(WithOutcome(synced, job, n, gfs, r), job, other, rotated);
    if r.Recorded? { ActiveOfSnoc(synced, WithNew(synced, job, n.(name := r.name), gfs)[|synced|], other); }
  }

  /** Names that disappear belong to active rows of the job that are not kept. */
  predicate DropsOnly(rows: seq<Row>, before: set<string>, after: set<string>, job: string, kept: set<string>)
  {
    forall m | m in before && m !in after ::
      exists q <- rows :: q.status == Active && q.job == job && q.name == m && q.id !in kept
  }

  lemma RotatedAreDropped(listed: seq<Snap>, k: Keeps, names: set<string>, failing: set<string>, rotated: set<string>)
    requires rotated <= Deleted(listed, k, names, failing)
    ensures rotated <= Ids(listed) - Keep(listed, k)
  {
    forall id | id in rotated ensures id in Ids(listed) - Keep(listed, k) {
      DeletedIsDropped(listed, k, names, failing, id);
    }
  }

  lemma ActiveInBase(rows: seq<Row>, names: set<string>, readable: bool, job: string, n: New, gfs: bool, r: Outcome,
                     p: Row)
    requires p in WithOutcome(Resynced(rows, names, readable), job, n, gfs, r) && p.status == Active
    requires p.name in names && (r.Recorded? ==> r.name !in names)
    ensures p in rows
  {
    ResyncedRow(rows, names, readable, p);
  }

  lemma RunDropsOnly(rows: seq<Row>, names: set<string>, readable: bool, job: string, n: New, gfs: bool, r: Outcome,
                     kept: set<string>, listed: seq<Snap>, after: set<string>, rotated: set<string>)
    requires r.Recorded? ==> r.name !in names
    requires var base := WithOutcome(Resynced(rows, names, readable), job, n, gfs, r);
      Ascending(base) && listed == ActiveOf(base, job)
    requires rotated !! kept
    requires forall m | m in names && m !in after :: exists s <- listed :: s.id in rotated && s.name == m
    ensures DropsOnly(rows, names, after, job, kept)
  {
    var base := WithOutcome(Resynced(rows, names, readable), job, n, gfs, r);
    ActiveListed(base, job);
    forall m | m in names && m !in after
      ensures exists q <- rows :: q.status == Active && q.job == job && q.name == m && q.id !in kept
    {
      var s :| s in listed && s.id in rotated && s.name == m;
      var p :| p in base && p.status == Active && p.job == job && s == AsSnap(p);
      ActiveInBase(rows, names, readable, job, n, gfs, r, p);
    }
  }

  predicate HasRow(rows: seq<Row>, id: string, name: string)
  {
    exists q <- rows :: q.id == id && q.name == name
  }

  lemma NewRowStays(rows: seq<Row>, job: string, n: New, gfs: bool, name: string, rotated: set<string>)
    ensures HasRow(Marked(WithNew(rows, job, n.(name := name), gfs), rotated), n.id, name)
  {
    var after := Marked(WithNew(rows, job, n.(name := name), gfs), rotated);
    assert after[|rows|] in after && after[|rows|].id == n.id && after[|rows|].name == name;
  }

  class VmSnapshots {
    var rows: seq<Row>
    var names: set<string>

    constructor ()
      ensures rows == [] && names == {}
    {
      rows, names := [], {};
    }

    /** `sync_external_state` */
    method SyncExternalState(present: set<string>) returns (vanished: nat, external: set<string>)
      modifies this`rows
      ensures rows == Synced(old(rows), present)
      ensures vanished == |ActiveNames(old(rows)) - present|
      ensures external == set n <- present | PREFIX <= n && n !in ActiveNames(old(rows))
      ensures |rows| == |old(rows)| && forall i :: 0 <= i < |rows| ==>
        rows[i] == if old(rows)[i].status == Active && old(rows)[i].name !in present
                   then old(rows)[i].(status := DeletedExternally) else old(rows)[i]
    {
      var dbNames := ActiveNames(rows);
      var gone := dbNames - present;
      vanished := |gone|;
      external := set n <- present | PREFIX <= n && n !in dbNames;
      var update: Row -> Row :=
        (r: Row) => if r.status == Active && r.name in gone then r.(status := DeletedExternally) else r;
      EachRowAgrees(update, SyncRow(present), rows);
      if gone != {} {
        rows := EachRow(update, rows);
      } else {
        EachRowSame(update, rows);
      }
    }

    /** The create part of `_process_vm_target`. A name already in the table makes
        the insert fail, which aborts the run after the hypervisor has created it. */
    method CreateSnapshot(job: string, gfs: bool, n: New, retry: string, first: Answer, second: Answer)
      returns (r: Outcome)
      modifies this
      ensures var a := Attempt(old(names), n.name, retry, first, second);
        if !a.Recorded? then r == a && rows == old(rows) && names == old(names)
        else
          names == old(names) + {a.name} && a.name !in old(names)
          && if a.name in RowNames(old(rows)) then r == Aborted(a.name) && rows == old(rows)
             else r == a && rows == WithNew(old(rows), job, n.(name := a.name), gfs)
      // under its own name, or under the retry name if that one was there already
      ensures r.Recorded? || r.Aborted? <==>
        (first == Created && n.name !in old(names))
        || (NameThere(first, n.name, old(names)) && second == Created && retry !in old(names))
      ensures r.Recorded? || r.Aborted? ==>
        r.name == if NameThere(first, n.name, old(names)) then retry else n.name
      ensures r == SkippedLocked <==> first == Locked || (NameThere(first, n.name, old(names)) && second == Locked)
      ensures r.Aborted? ==> exists q <- rows :: q.name == r.name
      ensures r.Recorded? ==>
        |rows| == |old(rows)| + 1 && rows[..|old(rows)|] == old(rows)
        && var row := rows[|old(rows)|];
          row.id == n.id && row.job == job && row.name == r.name && row.at == n.at && row.status == Active
    {
      var snapname, answer := n.name, Effective(names, n.name, first);
      if answer == AlreadyExists {
        snapname := retry;
        answer := Effective(names, retry, second);
      }
      if answer == Locked {
        return SkippedLocked;
      }
      if answer != Created {
        return CreateFailed;
      }
      names := names + {snapname};
      var tiers := ComputeGfsTiers(ActiveOf(rows, job), gfs, n.tierTime);
      if snapname in RowNames(rows) {
        return Aborted(snapname);
      }
      rows := rows + [NewRow(n.id, job, snapname, n.at, tiers)];
      return Recorded(snapname);
    }

    /** Deletes one snapshot after the other; an existing one whose delete does not
        fail is gone, the others are skipped. */
    method DeleteEach(job: string, toDelete: seq<Snap>, failing: set<string>) returns (rotated: set<string>)
      requires WellFormed(rows) && forall s <- toDelete :: s in ActiveOf(rows, job)
      modifies this`names
      ensures rotated == DeletedIn(toDelete, old(names), failing)
      ensures names == old(names) - NamesIn(toDelete, old(names), failing)
    {
      rotated := {};
      for i := 0 to |toDelete|
        invariant rotated == DeletedIn(toDelete[..i], old(names), failing)
        invariant names == old(names) - NamesIn(toDelete[..i], old(names), failing)
      {
        var s := toDelete[i];
        assert toDelete[..i + 1] == toDelete[..i] + [s];
        if s.name in names && s.name !in failing {
          names := names - {s.name};
          rotated := rotated + {s.id};
        } else if s.name in old(names) && s.name !in failing {
          var t :| t in toDelete[..i] && t.name == s.name;
          ListedNamesDiffer(rows, job, t, s);
        }
      }
      assert toDelete[..|toDelete|] == toDelete;
    }

    /** `_rotate_native_for_target`: deletes one snapshot after the other, then
        marks the rows whose delete succeeded. */
    method Rotate(job: string, k: Keeps, reachable: bool, failing: set<string>) returns (rotated: set<string>)
      requires WellFormed(rows)
      modifies this
      ensures var xs := ActiveOf(old(rows), job);
        rotated == (if reachable then Deleted(xs, k, old(names), failing) else {})
        && names == old(names) - (set s <- xs | s.id in rotated :: s.name)
      ensures rows == Marked(old(rows), rotated)
      ensures |rows| == |old(rows)| && forall i :: 0 <= i < |rows| ==>
        rows[i] == if old(rows)[i].status == Active && old(rows)[i].id in rotated
                   then old(rows)[i].(status := Rotated) else old(rows)[i]
      // what stays active: what is kept, and what could not be deleted
      ensures Stays(ActiveOf(old(rows), job), ActiveOf(rows, job), k, !reachable, old(names), failing)
      ensures Agree(old(rows), old(names)) ==> Agree(rows, names)
    {
      var snapshots := ActiveOf(rows, job);
      var keep := DetermineKeepSet(snapshots, k);
      var toDelete := Only(snapshots, Ids(snapshots) - keep);
      OnlyMembers(snapshots, Ids(snapshots) - keep);
      rotated := {};
      StaysIff(rows, job, k, names, failing);
      if toDelete == [] || !reachable {
        EachRowSame(MarkRow({}), rows);
        if toDelete == [] { NothingDropped(snapshots, k); }
        return;
      }
      rotated := DeleteEach(job, toDelete, failing);
      if Agree(rows, old(names)) { RotationAgrees(rows, job, toDelete, old(names), failing); }
      NamesOfDeleted(rows, job, toDelete, old(names), failing);
      rows := Marked(rows, rotated);
    }

    /** The first half of a run: resync if the names can be read, then create. */
    method ResyncAndCreate(job: string, gfs: bool, readable: bool, n: New, retry: string, first: Answer, second: Answer)
      returns (r: Outcome)
      requires WellFormed(rows) && n.id !in RowIds(rows) && forall q <- rows :: q.at < n.at
      modifies this
      ensures rows == WithOutcome(Resynced(old(rows), old(names), readable), job, n, gfs, r)
      ensures WellFormed(rows)
      ensures readable || Agree(old(rows), old(names)) ==> Agree(rows, names)
      ensures names == old(names) + CreatedName(r)
      ensures r.Recorded? ==> r.name !in old(names)
    {
      if readable {
        var vanished, external := SyncExternalState(names);
      }
      r := CreateSnapshot(job, gfs, n, retry, first, second);
      BaseShape(old(rows), old(names), readable, job, n, gfs, r);
      if readable || Agree(old(rows), old(names)) {
        BaseAgrees(old(rows), old(names), readable, job, n, gfs, r, names);
      }
    }

    /** The second half of a run, which an aborted one does not reach. */
    method RotateUnless(aborted: bool, job: string, k: Keeps, reachable: bool, failing: set<string>)
      returns (rotated: set<string>)
      requires WellFormed(rows)
      modifies this
      ensures rows == Marked(old(rows), rotated) && WellFormed(rows)
      ensures rotated <= Deleted(ActiveOf(old(rows), job), k, old(names), failing)
      ensures names == old(names) - (set s <- ActiveOf(old(rows), job) | s.id in rotated :: s.name)
      ensures Stays(ActiveOf(old(rows), job), ActiveOf(rows, job), k, aborted || !reachable, old(names), failing)
      ensures Agree(old(rows), old(names)) ==> Agree(rows, names)
    {
      rotated := {};
      if aborted {
        EachRowSame(MarkRow({}), rows);
      } else {
        rotated := Rotate(job, k, reachable, failing);
        EachKeepsShape(MarkRow(rotated), old(rows));
      }
    }

    /** One run on this VM. If some target's insert failed, the run ends before any
        rotation. Nobody else edits the VM's snapshots meanwhile. */
    method RunTarget(job: string, k: Keeps, gfs: bool, readable: bool, n: New, retry: string, first: Answer,
                     second: Answer, othersFine: bool, reachable: bool, failing: set<string>)
      returns (r: Outcome, rotated: set<string>)
      requires WellFormed(rows) && n.id !in RowIds(rows) && forall q <- rows :: q.at < n.at
      modifies this
      // every active row names an existing snapshot
      ensures readable || Agree(old(rows), old(names)) ==> Agree(rows, names)
      // a new row carries the name that was really created, retried or not
      ensures r.Recorded? ==> r.name !in old(names) && HasRow(rows, n.id, r.name)
      // what is deleted had an active row of this job outside the keep set
      ensures var xs := ActiveOf(WithOutcome(Resynced(old(rows), old(names), readable), job, n, gfs, r), job);
        DropsOnly(old(rows), old(names), names, job, Keep(xs, k))
      // and all of that is deleted, unless the run ends early or the delete fails
      ensures var xs := ActiveOf(WithOutcome(Resynced(old(rows), old(names), readable), job, n, gfs, r), job);
        Stays(xs, ActiveOf(rows, job), k, r.Aborted? || !othersFine || !reachable, old(names) + CreatedName(r), failing)
      // for every job of the VM the run is a step of its history
      ensures Follows(old(rows), RunOf(old(rows), old(names), readable, job, n, gfs, r, k, rotated), rows)
      ensures WellFormed(rows)
    {
      r := ResyncAndCreate(job, gfs, readable, n, retry, first, second);
      ghost var base, there := rows, names;
      rotated := RotateUnless(r.Aborted? || !othersFine, job, k, reachable, failing);
      RotatedAreDropped(ActiveOf(base, job), k, there, failing, rotated);
      RunFollows(old(rows), old(names), readable, job, n, gfs, r, k, rotated);
      RunDropsOnly(old(rows), old(names), readable, job, n, gfs, r, Keep(ActiveOf(base, job), k), ActiveOf(base, job),
                   names, rotated);
      if r.Recorded? { NewRowStays(Resynced(old(rows), old(names), readable), job, n, gfs, r.name, rotated); }
    }
  }
}
