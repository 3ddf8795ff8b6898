/** The trigger protocol of one repository: a lock, one queued flag, and tasks
    that each run at most two passes. Every step may interleave with every other. */
module GitTrigger {
  import opened Options

  /** Where a task stands: waiting for its first pass, in it, about to look at the
      flag, waiting for the drain pass, in it, ended. */
  datatype Pc = Start | First | Look | Wait | Drain | Done

  datatype State = State(tasks: map<int, Pc>, holder: Option<int>, flag: bool)

  datatype Event = Trigger(id: int) | Acquire(id: int) | Finish(id: int) | LookAtFlag(id: int) | Raise(id: int)

  const IDLE: State := State(map[], None, false)

  predicate At(s: State, id: int, pc: Pc)
  {
    id in s.tasks && s.tasks[id] == pc
  }

  predicate Running(s: State, id: int)
  {
    At(s, id, First) || At(s, id, Drain)
  }

  predicate Waiting(s: State, id: int)
  {
    At(s, id, Start) || At(s, id, Wait)
  }

  predicate Enabled(s: State, e: Event)
  {
    match e
    case Trigger(id) => id !in s.tasks
    case Acquire(id) => s.holder == None && Waiting(s, id)
    case Finish(id) => Running(s, id)
    case LookAtFlag(id) => At(s, id, Look)
    case Raise(id) => Running(s, id)
  }

  function Move(s: State, id: int, pc: Pc): State
  {
    s.(tasks := s.tasks[id := pc])
  }

  /** The answer of `trigger_sync`. */
  predicate Queues(s: State)
  {
    s.holder.Some?
  }

  /** A pass that raises ends its task at once, without a look at the flag. */
  function After(s: State, e: Event): State
    requires Enabled(s, e)
  {
    match e
    case Trigger(id) => if Queues(s) then s.(flag := true) else Move(s, id, Start)
    case Acquire(id) => Move(s, id, if s.tasks[id] == Start then First else Drain).(holder := Some(id))
    case Finish(id) => Move(s, id, if s.tasks[id] == First then Look else Done).(holder := None)
    case LookAtFlag(id) => Move(s, id, if s.flag then Wait else Done).(flag := false)
    case Raise(id) => Move(s, id, Done).(holder := None)
  }

  predicate Legal(s: State, es: seq<Event>)
    decreases es
  {
    es != [] ==> Enabled(s, es[0]) && Legal(After(s, es[0]), es[1..])
  }

  function AfterAll(s: State, es: seq<Event>): State
    requires Legal(s, es)
    decreases es
  {
    if es == [] then s else AfterAll(After(s, es[0]), es[1..])
  }

  predicate AllDone(s: State)
  {
    forall id <- s.tasks :: s.tasks[id] == Done
  }

  lemma {:induction false} LegalPrefix(s: State, es: seq<Event>, k: nat)
    requires Legal(s, es) && k <= |es|
    ensures Legal(s, es[..k]) && Legal(AfterAll(s, es[..k]), es[k..])
    ensures AfterAll(AfterAll(s, es[..k]), es[k..]) == AfterAll(s, es)
    decreases es
  {
    if k > 0 {
      LegalPrefix(After(s, es[0]), es[1..], k - 1);
      assert es[..k][0] == es[0] && es[..k][1..] == es[1..][..k - 1];
      assert es[1..][k - 1..] == es[k..];
    } else {
      assert es[..0] == [] && es[0..] == es;
    }
  }

  /** The state before event `k`. */
  function StateAt(s: State, es: seq<Event>, k: nat): State
    requires Legal(s, es) && k <= |es|
  {
    LegalPrefix(s, es, k);
    AfterAll(s, es[..k])
  }

  lemma Split(s: State, es: seq<Event>, k: nat)
    requires Legal(s, es) && k < |es|
    ensures var u := StateAt(s, es, k);
      Enabled(u, es[k]) && Legal(After(u, es[k]), es[k + 1..])
      && AfterAll(After(u, es[k]), es[k + 1..]) == AfterAll(s, es)
  {
    LegalPrefix(s, es, k);
    assert es[k..][0] == es[k] && es[k..][1..] == es[k + 1..];
  }

  // ------------------------------------------------------------ mutual exclusion

  /** A task is in a pass exactly if it holds the lock. */
  predicate Inv(s: State)
  {
    && (forall id <- s.tasks :: Running(s, id) ==> s.holder == Some(id))
    && (s.holder.Some? ==> Running(s, s.holder.value))
  }

  lemma InvKept(s: State, e: Event)
    requires Inv(s) && Enabled(s, e)
    ensures Inv(After(s, e))
  {
  }

  lemma {:induction false} InvReached(s: State, es: seq<Event>)
    requires Inv(s) && Legal(s, es)
    ensures Inv(AfterAll(s, es))
    decreases es
  {
    if es != [] {
      InvKept(s, es[0]);
      InvReached(After(s, es[0]), es[1..]);
    }
  }

  /** At most one pass runs at a time. */
  lemma OnePassAtATime(es: seq<Event>, a: int, b: int)
    requires Legal(IDLE, es) && Running(AfterAll(IDLE, es), a) && Running(AfterAll(IDLE, es), b)
    ensures a == b
  {
    InvReached(IDLE, es);
  }

  // --------------------------------------------------------- passes that must come

  predicate Begins(es: seq<Event>, from: nat, id: int)
  {
    exists j :: from <= j < |es| && es[j] == Acquire(id)
  }

  lemma BeginsLater(e: Event, rest: seq<Event>, id: int)
    requires Begins(rest, 0, id)
    ensures Begins([e] + rest, 1, id) && Begins([e] + rest, 0, id)
  {
    var j :| 0 <= j < |rest| && rest[j] == Acquire(id);
    assert ([e] + rest)[j + 1] == Acquire(id);
  }

  /** A task that waits and later has ended began a pass in between. */
  lemma {:induction false} WaitingBegins(s: State, es: seq<Event>, id: int)
    requires Legal(s, es) && Waiting(s, id) && At(AfterAll(s, es), id, Done)
    ensures Begins(es, 0, id)
    decreases es
  {
    if es != [] {
      var e, rest := es[0], es[1..];
      assert es == [e] + rest;
      if e != Acquire(id) {
        WaitingBegins(After(s, e), rest, id);
        BeginsLater(e, rest, id);
      }
    }
  }

  /** A trigger answered "started" gets a pass of its own, after the trigger. */
  lemma StartedRuns(es: seq<Event>, k: nat)
    requires Legal(IDLE, es) && AllDone(AfterAll(IDLE, es)) && k < |es| && es[k].Trigger?
    requires !Queues(StateAt(IDLE, es, k))
    ensures Begins(es, k + 1, es[k].id)
  {
    var id, s := es[k].id, StateAt(IDLE, es, k);
    Split(IDLE, es, k);
    TasksStay(After(s, es[k]), es[k + 1..], id);
    WaitingBegins(After(s, es[k]), es[k + 1..], id);
    var j :| 0 <= j < |es[k + 1..]| && es[k + 1..][j] == Acquire(id);
    assert es[k + 1 + j] == Acquire(id);
  }

  lemma {:induction false} TasksStay(s: State, es: seq<Event>, id: int)
    requires Legal(s, es) && id in s.tasks
    ensures id in AfterAll(s, es).tasks
    decreases es
  {
    if es != [] { TasksStay(After(s, es[0]), es[1..], id); }
  }

  /** Some task has still to look at the flag. */
  predicate WillLook(s: State)
  {
    exists id <- s.tasks :: s.tasks[id] == First || s.tasks[id] == Look
  }

  predicate NoRaise(es: seq<Event>)
  {
    forall e <- es :: !e.Raise?
  }

  lemma WillLookKept(s: State, e: Event, id: int)
    requires Enabled(s, e) && !e.Raise? && (At(s, id, First) || At(s, id, Look))
    requires e != LookAtFlag(id)
    ensures WillLook(After(s, e))
  {
    assert id in After(s, e).tasks;
  }

  /** Some pass begins at or after event `from`. */
  predicate SomePass(es: seq<Event>, from: nat)
  {
    exists j :: from <= j < |es| && es[j].Acquire?
  }

  /** A raised flag that some task will look at leads to another pass. */
  lemma {:induction false} FlagIsServed(s: State, es: seq<Event>)
    requires Legal(s, es) && NoRaise(es) && s.flag && WillLook(s) && AllDone(AfterAll(s, es))
    ensures SomePass(es, 0)
    decreases es
  {
    var t :| t in s.tasks && (s.tasks[t] == First || s.tasks[t] == Look);
    if es != [] {
      var e, rest := es[0], es[1..];
      assert es == [e] + rest && e in es;
      if e.LookAtFlag? {
        LookerPasses(s, e, rest);
      } else if !e.Acquire? {
        WillLookKept(s, e, t);
        FlagIsServed(After(s, e), rest);
        SomePassLater(e, rest);
      }
    }
  }

  lemma SomePassLater(e: Event, rest: seq<Event>)
    requires SomePass(rest, 0)
    ensures SomePass([e] + rest, 0)
  {
    var j :| 0 <= j < |rest| && rest[j].Acquire?;
    assert ([e] + rest)[j + 1].Acquire?;
  }

  /** The task that sees the flag up begins a drain pass. */
  lemma LookerPasses(s: State, e: Event, rest: seq<Event>)
    requires s.flag && e.LookAtFlag? && Enabled(s, e)
    requires Legal(After(s, e), rest) && AllDone(AfterAll(After(s, e), rest))
    ensures SomePass([e] + rest, 0)
  {
    TasksStay(After(s, e), rest, e.id);
    WaitingBegins(After(s, e), rest, e.id);
    BeginsLater(e, rest, e.id);
  }

  /** A task that is about to look serves the flag even if passes raise. */
  lemma {:induction false} LookIsServed(s: State, es: seq<Event>, t: int)
    requires Legal(s, es) && s.flag && At(s, t, Look) && AllDone(AfterAll(s, es))
    ensures SomePass(es, 0)
    decreases es
  {
    if es != [] {
      var e, rest := es[0], es[1..];
      assert es == [e] + rest;
      if e.LookAtFlag? {
        LookerPasses(s, e, rest);
      } else if !e.Acquire? {
        LookIsServed(After(s, e), rest, t);
        SomePassLater(e, rest);
      }
    } else {
      TasksStay(s, es, t);
    }
  }

  lemma WaitingIsServed(s: State, es: seq<Event>, t: int)
    requires Legal(s, es) && Waiting(s, t) && AllDone(AfterAll(s, es))
    ensures SomePass(es, 0)
  {
    TasksStay(s, es, t);
    WaitingBegins(s, es, t);
  }

  /** A run in which all tasks end. */
  predicate Completes(s: State, es: seq<Event>)
  {
    Legal(s, es) && AllDone(AfterAll(s, es))
  }

  /** However the run goes on, a pass begins; `raises` says whether passes may raise. */
  ghost predicate AlwaysServed(s: State, raises: bool)
  {
    forall es: seq<Event> :: Completes(s, es) && (raises || NoRaise(es)) ==> SomePass(es, 0)
  }

  predicate SomeTask(s: State, pcs: set<Pc>)
  {
    exists t <- s.tasks :: s.tasks[t] in pcs
  }

  /** The holder's pass ends, by raising or not, and nothing else happens. */
  lemma EndsAlone(s: State, e: Event)
    requires Inv(s) && Queues(s) && Enabled(s, e) && e.id == s.holder.value
    requires e.Raise? || (e.Finish? && At(s, e.id, Drain))
    requires forall t <- s.tasks :: t != e.id ==> s.tasks[t] == Done
    ensures Completes(s, [e]) && !SomePass([e], 0)
  {
    assert [e][1..] == [];
    assert AfterAll(s, [e]) == AfterAll(After(s, e), []) == After(s, e);
  }

  /** A trigger answered "queued" is followed by a pass in every run without a raise
      exactly if some task is still to pass or to look; in a drain pass of the last
      task it is lost. */
  lemma QueuedIsServedIff(s: State, id: int)
    requires Inv(s) && Queues(s) && id !in s.tasks
    ensures AlwaysServed(After(s, Trigger(id)), false) <==> SomeTask(s, {Start, First, Look, Wait})
  {
    var u, h := After(s, Trigger(id)), s.holder.value;
    assert u == s.(flag := true);
    if SomeTask(s, {Start, First, Look, Wait}) {
      var t :| t in s.tasks && s.tasks[t] in {Start, First, Look, Wait};
      forall es: seq<Event> | Completes(u, es) && NoRaise(es) ensures SomePass(es, 0) {
        if Waiting(u, t) { WaitingIsServed(u, es, t); } else { FlagIsServed(u, es); }
      }
    } else {
      OthersDone(s, {Start, First, Look, Wait});
      EndsAlone(u, Finish(h));
    }
  }

  /** If passes may raise, the first pass of the last task does not save it either:
      it can raise, and then its task ends without a look at the flag. */
  lemma QueuedIsServedDespiteRaisesIff(s: State, id: int)
    requires Inv(s) && Queues(s) && id !in s.tasks
    ensures AlwaysServed(After(s, Trigger(id)), true) <==> SomeTask(s, {Start, Look, Wait})
  {
    var u, h := After(s, Trigger(id)), s.holder.value;
    assert u == s.(flag := true);
    if SomeTask(s, {Start, Look, Wait}) {
      var t :| t in s.tasks && s.tasks[t] in {Start, Look, Wait};
      forall es: seq<Event> | Completes(u, es) ensures SomePass(es, 0) {
        if Waiting(u, t) { WaitingIsServed(u, es, t); } else { LookIsServed(u, es, t); }
      }
    } else {
      OthersDone(s, {Start, Look, Wait});
      EndsAlone(u, Raise(h));
    }
  }

  lemma OthersDone(s: State, pcs: set<Pc>)
    requires Inv(s) && Queues(s) && !SomeTask(s, pcs) && {Start, Look, Wait} <= pcs
    ensures forall t <- s.tasks :: t != s.holder.value ==> s.tasks[t] == Done
    ensures First in pcs ==> At(s, s.holder.value, Drain)
  {
    forall t | t in s.tasks && t != s.holder.value ensures s.tasks[t] == Done { assert !Running(s, t); }
  }

  /** In a run from the start: a trigger answered "queued" during a first pass is
      followed by a pass that begins after it, if no later pass raises. */
  lemma QueuedInFirstPassIsServed(es: seq<Event>, k: nat)
    requires Completes(IDLE, es) && k < |es| && es[k].Trigger? && NoRaise(es[k + 1..])
    requires var s := StateAt(IDLE, es, k); Queues(s) && At(s, s.holder.value, First)
    ensures SomePass(es, k + 1)
  {
    var s, rest := StateAt(IDLE, es, k), es[k + 1..];
    Split(IDLE, es, k);
    FlagIsServed(After(s, es[k]), rest);
    var j :| 0 <= j < |rest| && rest[j].Acquire?;
    assert es[k + 1 + j].Acquire?;
  }

  // ---------------------------------------------------------- at most two passes

  function Passes(es: seq<Event>, id: int): nat
  {
    if es == [] then 0 else (if es[0] == Acquire(id) then 1 else 0) + Passes(es[1..], id)
  }

  function Budget(s: State, id: int): nat
  {
    if id !in s.tasks then 2
    else match s.tasks[id]
      case Start => 2
      case Drain => 0
      case Done => 0
      case _ => 1
  }

  lemma {:induction false} PassesWithinBudget(s: State, es: seq<Event>, id: int)
    requires Legal(s, es)
    ensures Passes(es, id) <= Budget(s, id)
    decreases es
  {
    if es != [] { PassesWithinBudget(After(s, es[0]), es[1..], id); }
  }

  /** A task runs at most two passes. */
  lemma AtMostTwoPasses(es: seq<Event>, id: int)
    requires Legal(IDLE, es)
    ensures Passes(es, id) <= 2
  {
    PassesWithinBudget(IDLE, es, id);
  }

  // ------------------------------------------------------------- a flag left over

  /** Event `k` is a trigger that raises the flag during a drain pass. */
  predicate RaisedInDrain(s: State, es: seq<Event>, k: nat)
    requires Legal(s, es)
  {
    k < |es| && es[k].Trigger?
    && var u := StateAt(s, es, k); u.holder.Some? && At(u, u.holder.value, Drain)
  }

  lemma RaisedLater(s: State, e: Event, rest: seq<Event>, k: nat)
    requires Enabled(s, e) && Legal(After(s, e), rest) && Legal(s, [e] + rest) && RaisedInDrain(After(s, e), rest, k)
    ensures RaisedInDrain(s, [e] + rest, k + 1)
  {
    assert ([e] + rest)[..k + 1][1..] == rest[..k];
  }

  lemma {:induction false} LeftOver(s: State, es: seq<Event>)
    requires Legal(s, es) && NoRaise(es) && Inv(s) && (s.flag ==> WillLook(s))
    requires AllDone(AfterAll(s, es)) && AfterAll(s, es).flag
    ensures exists k: nat :: RaisedInDrain(s, es, k)
    decreases es
  {
    if es != [] {
      var e, rest := es[0], es[1..];
      assert es == [e] + rest && e in es;
      assert es[..0] == [];
      if e.Trigger? && s.holder.Some? && At(s, s.holder.value, Drain) {
        assert RaisedInDrain(s, es, 0);
      } else {
        InvKept(s, e);
        FlagWillBeSeen(s, e);
        LeftOver(After(s, e), rest);
        var k: nat :| RaisedInDrain(After(s, e), rest, k);
        RaisedLater(s, e, rest, k);
      }
    }
  }

  lemma FlagWillBeSeen(s: State, e: Event)
    requires Inv(s) && Enabled(s, e) && !e.Raise? && (s.flag ==> WillLook(s))
    requires !(e.Trigger? && s.holder.Some? && At(s, s.holder.value, Drain))
    ensures After(s, e).flag ==> WillLook(After(s, e))
  {
    if e.Trigger? && Queues(s) {
      WillLookKept(s, e, s.holder.value);
    } else if s.flag && !e.LookAtFlag? {
      var t :| t in s.tasks && (s.tasks[t] == First || s.tasks[t] == Look);
      WillLookKept(s, e, t);
    }
  }

  /** If no pass raised, a flag still up when all tasks have ended was raised
      during a drain pass. */
  lemma LeftOverFlagIsFromDrain(es: seq<Event>)
    requires Legal(IDLE, es) && NoRaise(es) && AllDone(AfterAll(IDLE, es)) && AfterAll(IDLE, es).flag
    ensures exists k: nat :: RaisedInDrain(IDLE, es, k)
  {
    LeftOver(IDLE, es);
  }

  // --------------------------------------------- the drain pass of the last task

  lemma Step(s: State, e: Event, rest: seq<Event>)
    requires Enabled(s, e) && Legal(After(s, e), rest)
    ensures Legal(s, [e] + rest) && AfterAll(s, [e] + rest) == AfterAll(After(s, e), rest)
  {
    assert ([e] + rest)[1..] == rest;
  }

  /** Two triggers bring a task into its drain pass. */
  function ToDrain(id: int, second: int): seq<Event>
  {
    [Trigger(id)] + ([Acquire(id)] + ([Trigger(second)] + ([Finish(id)] + ([LookAtFlag(id)] + [Acquire(id)]))))
  }

  lemma DrainReached(id: int, second: int)
    requires id != second
    ensures Legal(IDLE, ToDrain(id, second))
    ensures AfterAll(IDLE, ToDrain(id, second)) == State(map[id := Drain], Some(id), false)
  {
    var s1 := After(IDLE, Trigger(id));
    var s2 := After(s1, Acquire(id));
    var s3 := After(s2, Trigger(second));
    var s4 := After(s3, Finish(id));
    var s5 := After(s4, LookAtFlag(id));
    assert [Acquire(id)][1..] == [];
    Step(s4, LookAtFlag(id), [Acquire(id)]);
    Step(s3, Finish(id), [LookAtFlag(id)] + [Acquire(id)]);
    Step(s2, Trigger(second), [Finish(id)] + ([LookAtFlag(id)] + [Acquire(id)]));
    Step(s1, Acquire(id), [Trigger(second)] + ([Finish(id)] + ([LookAtFlag(id)] + [Acquire(id)])));
    Step(IDLE, Trigger(id),
         [Acquire(id)] + ([Trigger(second)] + ([Finish(id)] + ([LookAtFlag(id)] + [Acquire(id)]))));
    assert AfterAll(s5, [Acquire(id)]) == After(s5, Acquire(id));
    assert After(s5, Acquire(id)).tasks == map[id := Drain];
  }

  /** From there the third trigger can be lost although no pass raises. */
  lemma DrainTriggerLost(id: int, second: int, third: int)
    requires id != second && id != third
    ensures Legal(IDLE, ToDrain(id, second))
    ensures var s := AfterAll(IDLE, ToDrain(id, second));
      Enabled(s, Trigger(third)) && Queues(s) && !AlwaysServed(After(s, Trigger(third)), false)
  {
    DrainReached(id, second);
    QueuedIsServedIff(AfterAll(IDLE, ToDrain(id, second)), third);
  }

  // ------------------------------------------------------------------- no deadlock

  function Weight(pc: Pc): nat
  {
    match pc
    case Start => 5
    case First => 4
    case Look => 3
    case Wait => 2
    case Drain => 1
    case Done => 0
  }

  predicate Advances(s: State, e: Event)
    requires Enabled(s, e)
  {
    !e.Trigger? && !e.Raise? && e.id in s.tasks && e.id in After(s, e).tasks
    && Weight(After(s, e).tasks[e.id]) < Weight(s.tasks[e.id])
    && forall o <- s.tasks :: o != e.id ==> o in After(s, e).tasks && After(s, e).tasks[o] == s.tasks[o]
  }

  /** As long as a task has not ended some step is possible that brings a task
      closer to its end, without any further trigger. */
  lemma SomeTaskCanMove(s: State, id: int)
    requires Inv(s) && id in s.tasks && s.tasks[id] != Done
    ensures exists e: Event :: Enabled(s, e) && Advances(s, e)
  {
    var e := if s.holder.Some? then Finish(s.holder.value)
             else if s.tasks[id] == Look then LookAtFlag(id) else Acquire(id);
    assert Enabled(s, e) && Advances(s, e);
  }
}
