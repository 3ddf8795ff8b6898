/** Calls of `approve_approval` that overlap one another and every other writer. */
module ApprovalCalls {
  import opened SecretMasking
  import opened Approvals

  /** A call has seen its request pending, sent its update, or started the handler. */
  datatype Phase = Seen | Marked | Started | Ended

  datatype Call = Call(id: string, phase: Phase)

  datatype World = World(table: Table, calls: map<nat, Call>)

  datatype Event =
    | Look(call: nat, id: string)
    | Mark(call: nat, now: int)
    | Start(call: nat)
    | Finish(call: nat, job: string)
    | GiveUp(call: nat)
    | Write(step: Step)

  predicate At(w: World, c: nat, phase: Phase)
  {
    c in w.calls && w.calls[c].phase == phase
  }

  /** A call begins if it finds the request pending. Only these calls approve, execute
      and clear blobs; all other statements come at any time. */
  predicate Enabled(w: World, e: Event)
  {
    match e
    case Look(c, id) => c !in w.calls && id in w.table && w.table[id].status == Pending
    case Mark(c, _) => At(w, c, Seen)
    case Start(c) => At(w, c, Marked)
    case Finish(c, _) => At(w, c, Started)
    case GiveUp(c) => At(w, c, Started)
    case Write(s) => Legal(w.table, s) && !s.Approve? && !s.Execute? && !s.ClearBlob?
  }

  function Move(w: World, c: nat, phase: Phase): map<nat, Call>
    requires c in w.calls
  {
    w.calls[c := w.calls[c].(phase := phase)]
  }

  function After(w: World, e: Event): World
    requires Enabled(w, e)
  {
    match e
    case Look(c, id) => w.(calls := w.calls[c := Call(id, Seen)])
    case Mark(c, now) => World(Exec(w.table, Approve(w.calls[c].id, now)), Move(w, c, Marked))
    case Start(c) => w.(calls := Move(w, c, Started))
    case Finish(c, job) => World(Exec(w.table, Execute(w.calls[c].id, job)), Move(w, c, Ended))
    case GiveUp(c) => World(Exec(w.table, ClearBlob(w.calls[c].id)), Move(w, c, Ended))
    case Write(s) => w.(table := Exec(w.table, s))
  }

  predicate AllEnabled(w: World, es: seq<Event>)
    decreases es
  {
    es != [] ==> Enabled(w, es[0]) && AllEnabled(After(w, es[0]), es[1..])
  }

  function AfterRun(w: World, es: seq<Event>): World
    requires AllEnabled(w, es)
    decreases es
  {
    if es == [] then w else AfterRun(After(w, es[0]), es[1..])
  }

  /** Once a call has sent its update, its request is not pending, whether or not the
      update changed it. */
  predicate CallsOk(w: World)
  {
    forall c <- w.calls ::
      w.calls[c].id in w.table && (w.calls[c].phase != Seen ==> w.table[w.calls[c].id].status != Pending)
  }

  lemma CallsOkKept(w: World, e: Event)
    requires CallsOk(w) && Enabled(w, e)
    ensures CallsOk(After(w, e))
  {
  }

  lemma {:induction false} CallsOkReached(w: World, es: seq<Event>)
    requires CallsOk(w) && AllEnabled(w, es)
    ensures CallsOk(AfterRun(w, es))
    decreases es
  {
    if es != [] {
      CallsOkKept(w, es[0]);
      CallsOkReached(After(w, es[0]), es[1..]);
    }
  }

  // --------------------------------------------------------- one handler or more

  function Callers(w: World, id: string): set<nat>
  {
    set c <- w.calls | w.calls[c].id == id
  }

  /** The calls that have started the handler of a request. */
  function Starters(w: World, id: string): set<nat>
  {
    set c <- w.calls | w.calls[c].id == id && (w.calls[c].phase == Started || w.calls[c].phase == Ended)
  }

  /** How often the handler of a request is started in a run. */
  function Starts(w: World, es: seq<Event>, id: string): nat
    requires AllEnabled(w, es)
    decreases es
  {
    if es == [] then 0
    else (if es[0].Start? && w.calls[es[0].call].id == id then 1 else 0) + Starts(After(w, es[0]), es[1..], id)
  }

  lemma StartsStep(w: World, e: Event, id: string)
    requires Enabled(w, e)
    ensures |Starters(After(w, e), id)|
         == |Starters(w, id)| + (if e.Start? && w.calls[e.call].id == id then 1 else 0)
  {
    if e.Start? && w.calls[e.call].id == id {
      assert Starters(After(w, e), id) == Starters(w, id) + {e.call};
    } else {
      assert Starters(After(w, e), id) == Starters(w, id);
    }
  }

  lemma {:induction false} StartsCounted(w: World, es: seq<Event>, id: string)
    requires AllEnabled(w, es)
    ensures |Starters(AfterRun(w, es), id)| == |Starters(w, id)| + Starts(w, es, id)
    decreases es
  {
    if es != [] {
      StartsStep(w, es[0], id);
      StartsCounted(After(w, es[0]), es[1..], id);
    }
  }

  /** Another call has seen the request and not yet sent its update. */
  predicate Overlaps(w: World, e: Event, id: string)
  {
    e.Look? && e.id == id && exists c <- w.calls :: w.calls[c] == Call(id, Seen)
  }

  predicate NoOverlap(w: World, es: seq<Event>, id: string)
    requires AllEnabled(w, es)
    decreases es
  {
    es != [] ==> !Overlaps(w, es[0], id) && NoOverlap(After(w, es[0]), es[1..], id)
  }

  lemma CallersStep(w: World, e: Event, id: string)
    requires CallsOk(w) && Enabled(w, e)
    ensures Callers(w, id) <= Callers(After(w, e), id)
    ensures |Callers(After(w, e), id)| == |Callers(w, id)| + (if e.Look? && e.id == id then 1 else 0)
    ensures e.Look? && e.id == id ==> (Overlaps(w, e, id) <==> Callers(w, id) != {})
  {
    if e.Look? && e.id == id {
      assert Callers(After(w, e), id) == Callers(w, id) + {e.call};
      if Overlaps(w, e, id) {
        var c :| c in w.calls && w.calls[c] == Call(id, Seen);
        assert c in Callers(w, id);
      }
      if Callers(w, id) != {} {
        var c :| c in w.calls && w.calls[c].id == id;
        assert w.calls[c] == Call(id, Seen);
      }
    } else {
      assert Callers(After(w, e), id) == Callers(w, id);
    }
  }

  /** A second call on a request begins exactly by overlapping a first one. */
  lemma {:induction false} OneCallerIff(w: World, es: seq<Event>, id: string)
    requires CallsOk(w) && AllEnabled(w, es)
    ensures |Callers(AfterRun(w, es), id)| >= |Callers(w, id)|
    ensures |Callers(w, id)| <= 1 ==> (|Callers(AfterRun(w, es), id)| <= 1 <==> NoOverlap(w, es, id))
    decreases es
  {
    if es != [] {
      CallersStep(w, es[0], id);
      CallsOkKept(w, es[0]);
      OneCallerIff(After(w, es[0]), es[1..], id);
    }
  }

  /** Over a whole run at whose end every call on the request has started its handler:
      it was started at most once exactly if no call looked at the request between the
      look and the update of another one. */
  lemma AtMostOneHandlerIff(t: Table, es: seq<Event>, id: string)
    requires AllEnabled(World(t, map[]), es)
    requires var w := AfterRun(World(t, map[]), es); Callers(w, id) == Starters(w, id)
    ensures Starts(World(t, map[]), es, id) <= 1 <==> NoOverlap(World(t, map[]), es, id)
  {
    var w := World(t, map[]);
    assert Callers(w, id) == {} && Starters(w, id) == {};
    StartsCounted(w, es, id);
    OneCallerIff(w, es, id);
  }

  const TWICE: seq<Event> := [Mark(0, 0), Mark(1, 0), Start(0), Start(1)]

  /** Two overlapping calls: the handler of one request is started twice. */
  lemma HandlerTwice(t: Table, id: string)
    requires id in t && t[id].status == Pending
    ensures var first := After(World(t, map[]), Look(0, id));
      Enabled(first, Look(1, id))
      && var w := After(first, Look(1, id)); AllEnabled(w, TWICE) && Starts(w, TWICE, id) == 2
  {
    var w := After(After(World(t, map[]), Look(0, id)), Look(1, id));
    var u := After(After(w, TWICE[0]), TWICE[1]);
    var v := After(After(u, TWICE[2]), TWICE[3]);
    assert TWICE[1..] == [Mark(1, 0), Start(0), Start(1)];
    assert TWICE[1..][1..] == [Start(0), Start(1)];
    assert TWICE[1..][1..][1..] == [Start(1)] && [Start(1)][1..] == [];
    assert Starts(v, [], id) == 0;
    assert Starts(After(u, TWICE[2]), [Start(1)], id) == 1;
    assert Starts(u, [Start(0), Start(1)], id) == 2;
  }

  // ------------------------------------------------- executed after another decision

  predicate IsExecuted(w: World, id: string)
  {
    id in w.table && w.table[id].status == Executed
  }

  /** A run at whose end the request is executed. */
  predicate Executes(w: World, es: seq<Event>, id: string)
  {
    AllEnabled(w, es) && IsExecuted(AfterRun(w, es), id)
  }

  /** A call on the request that is still to end. */
  predicate Busy(w: World, id: string)
  {
    exists c <- w.calls :: w.calls[c].id == id && w.calls[c].phase != Ended
  }

  lemma IdleStep(w: World, e: Event, id: string)
    requires Enabled(w, e) && id in w.table && !Busy(w, id)
    requires w.table[id].status != Pending && w.table[id].status != Executed
    ensures id in After(w, e).table && !Busy(After(w, e), id)
    ensures After(w, e).table[id].status != Pending && After(w, e).table[id].status != Executed
  {
    var u := After(w, e);
    forall c | c in u.calls && u.calls[c].id == id ensures u.calls[c].phase == Ended {
      assert c in w.calls ==> w.calls[c].id == id;
    }
  }

  lemma {:induction false} IdleStays(w: World, es: seq<Event>, id: string)
    requires AllEnabled(w, es) && id in w.table && !Busy(w, id)
    requires w.table[id].status != Pending && w.table[id].status != Executed
    ensures !IsExecuted(AfterRun(w, es), id)
    decreases es
  {
    if es != [] {
      IdleStep(w, es[0], id);
      IdleStays(After(w, es[0]), es[1..], id);
    }
  }

  /** The rest of a call whose handler succeeds. */
  function Rest(w: World, c: nat, now: int, job: string): seq<Event>
    requires c in w.calls
  {
    match w.calls[c].phase
    case Seen => [Mark(c, now), Start(c), Finish(c, job)]
    case Marked => [Start(c), Finish(c, job)]
    case Started => [Finish(c, job)]
    case Ended => []
  }

  lemma {:induction false} RestExecutes(w: World, c: nat, now: int, job: string)
    requires CallsOk(w) && c in w.calls && w.calls[c].phase != Ended
    ensures Executes(w, Rest(w, c, now, job), w.calls[c].id)
    decreases match w.calls[c].phase case Seen => 3 case Marked => 2 case Started => 1 case Ended => 0
  {
    var es := Rest(w, c, now, job);
    var u := After(w, es[0]);
    CallsOkKept(w, es[0]);
    if w.calls[c].phase == Started {
      assert es[1..] == [];
    } else {
      RestExecutes(u, c, now, job);
      assert es[1..] == Rest(u, c, now, job);
    }
  }

  /** A request that is no longer pending, for instance because it was rejected, can
      still come out executed exactly if a call that saw it pending has not ended. */
  lemma ExecutedAfterAllIff(w: World, id: string)
    requires CallsOk(w) && id in w.table && w.table[id].status != Pending && w.table[id].status != Executed
    ensures (exists es :: Executes(w, es, id)) <==> Busy(w, id)
  {
    if Busy(w, id) {
      var c :| c in w.calls && w.calls[c].id == id && w.calls[c].phase != Ended;
      RestExecutes(w, c, 0, "");
      assert Executes(w, Rest(w, c, 0, ""), id);
    } else {
      forall es | AllEnabled(w, es) ensures !Executes(w, es, id) { IdleStays(w, es, id); }
    }
  }

  /** Such a run: the request is rejected between the look and the update of a call,
      whose handler then runs on the payload without its secrets. */
  lemma RejectedThenExecuted(t: Table, id: string, c: nat, now: int, job: string)
    requires id in t && t[id].status == Pending
    ensures var looked := After(World(t, map[]), Look(c, id));
      var rejected := After(looked, Write(Reject(id, now)));
      rejected.table[id].status == Rejected
      && FullOf(After(rejected, Mark(c, now)).table[id]) == t[id].visible
      && Executes(rejected, Rest(rejected, c, now, job), id)
  {
    var looked := After(World(t, map[]), Look(c, id));
    CallsOkKept(World(t, map[]), Look(c, id));
    CallsOkKept(looked, Write(Reject(id, now)));
    RestExecutes(After(looked, Write(Reject(id, now))), c, now, job);
    assert t[id].visible + map[] == t[id].visible;
  }
}
