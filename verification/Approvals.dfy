/** The table of approval requests and every statement that writes to it. Each
    statement is one atomic step, and calls may interleave between statements. */
module Approvals {
  import opened Options
  import opened Text
  import opened SecretMasking

  datatype Status = Pending | Approved | Rejected | Cancelled | Expired | Suspended | Executed

  datatype Row = Row(actionType: string, target: string, visible: Payload, hash: string, blob: Option<Payload>,
                     requester: int, expiresAt: int, status: Status, decidedAt: Option<int>,
                     allowSelf: bool, parent: Option<string>, job: Option<string>)

  type Table = map<string, Row>

  /** The requests that one of the bulk cancellations addresses. */
  datatype Scope = Everything | OfUser(user: int) | OfTarget(kind: string, name: string) | OfStack(stack: string)

  datatype Step =
    | Insert(id: string, row: Row)
    | Approve(id: string, now: int)
    | Execute(id: string, job: string)
    | ClearBlob(id: string)
    | Reject(id: string, now: int)
    | Cancel(id: string, now: int)
    | Expire(now: int)
    | CancelAll(scope: Scope, now: int)
    | CancelIds(ids: set<string>, now: int)
    | Suspend(kind: string, name: string, now: int)

  predicate Open(r: Row)
  {
    r.status == Pending || r.status == Suspended
  }

  predicate InScope(scope: Scope, r: Row)
  {
    match scope
    case Everything => true
    case OfUser(user) => r.requester == user
    case OfTarget(kind, name) => r.actionType == kind && r.target == name
    case OfStack(stack) => (r.actionType == "stack_edit" || r.actionType == "stack_delete") && r.target == stack
  }

  /** The WHERE clauses. The update after the handler, the one that clears the blob
      and the cancellation by VM go by id alone. */
  predicate Where(s: Step, id: string, r: Row)
  {
    match s
    case Insert(_, _) => false
    case Approve(i, _) => id == i && r.status == Pending
    case Execute(i, _) => id == i
    case ClearBlob(i) => id == i
    case Reject(i, _) => id == i && r.status == Pending
    case Cancel(i, _) => id == i && Open(r)
    case Expire(now) => r.status == Pending && r.expiresAt < now
    case CancelAll(scope, _) => Open(r) && InScope(scope, r)
    case CancelIds(ids, _) => id in ids
    case Suspend(kind, name, _) => r.status == Pending && r.actionType == kind && r.target == name
  }

  function Updated(s: Step, r: Row): Row
  {
    match s
    case Insert(_, _) => r
    case Approve(_, now) => r.(status := Approved, decidedAt := Some(now))
    case Execute(_, job) => r.(status := Executed, job := Some(job), blob := None)
    case ClearBlob(_) => r.(blob := None)
    case Reject(_, now) => r.(status := Rejected, decidedAt := Some(now), blob := None)
    case Cancel(_, now) => r.(status := Cancelled, decidedAt := Some(now), blob := None)
    case Expire(now) => r.(status := Expired, decidedAt := Some(now), blob := None)
    case CancelAll(_, now) => r.(status := Cancelled, decidedAt := Some(now), blob := None)
    case CancelIds(_, now) => r.(status := Cancelled, decidedAt := Some(now), blob := None)
    case Suspend(_, _, now) => r.(status := Suspended, decidedAt := Some(now))
  }

  function Becomes(s: Step, id: string, r: Row): Row
  {
    if Where(s, id, r) then Updated(s, r) else r
  }

  function Exec(t: Table, s: Step): Table
  {
    if s.Insert? then t[s.id := s.row] else map id <- t :: Becomes(s, id, t[id])
  }

  // ------------------------------------------------------------ what a row stands for

  /** The payload a handler is given for a row. */
  function FullOf(r: Row): Payload
  {
    Full(r.visible, r.blob)
  }

  /** Requests that are over have no secrets left, and a pending one is undecided. */
  predicate RowOk(r: Row)
  {
    && (r.status == Rejected || r.status == Cancelled || r.status == Expired || r.status == Executed ==> r.blob == None)
    && (r.status == Pending ==> r.decidedAt == None)
  }

  predicate Inv(t: Table)
  {
    forall id <- t :: RowOk(t[id])
  }

  /** Ids are fresh, and requests are inserted pending. */
  predicate Legal(t: Table, s: Step)
  {
    s.Insert? ==> s.id !in t && s.row.status == Pending && s.row.decidedAt == None
  }

  lemma InvKept(t: Table, s: Step)
    requires Inv(t) && Legal(t, s)
    ensures Inv(Exec(t, s))
  {
    forall id | id in Exec(t, s) ensures RowOk(Exec(t, s)[id]) {
      if id in t { RowKept(s, id, t[id]); }
    }
  }

  lemma RowKept(s: Step, id: string, r: Row)
    requires RowOk(r)
    ensures RowOk(Becomes(s, id, r))
  {
  }

  // -------------------------------------------------------------------- whole runs

  function AfterAll(t: Table, steps: seq<Step>): Table
    decreases steps
  {
    if steps == [] then t else AfterAll(Exec(t, steps[0]), steps[1..])
  }

  predicate AllLegal(t: Table, steps: seq<Step>)
    decreases steps
  {
    steps != [] ==> Legal(t, steps[0]) && AllLegal(Exec(t, steps[0]), steps[1..])
  }

  /** The lifetime of secrets, in every interleaving of the statements of all
      writers: rejected, cancelled, expired and executed requests have no blob,
      pending ones no decision time. */
  lemma {:induction false} SecretLifetime(t: Table, steps: seq<Step>)
    requires Inv(t) && AllLegal(t, steps)
    ensures Inv(AfterAll(t, steps))
    decreases steps
  {
    if steps != [] {
      InvKept(t, steps[0]);
      SecretLifetime(Exec(t, steps[0]), steps[1..]);
    }
  }

  /** What no run does to a request: bring back its blob or another one, make it
      pending again, or change what was submitted. */
  predicate Onwards(a: Row, b: Row)
  {
    && (b.blob == a.blob || b.blob == None)
    && (a.status != Pending ==> b.status != Pending)
    && (!Open(a) ==> !Open(b))
    && b.visible == a.visible && b.hash == a.hash && b.requester == a.requester && b.parent == a.parent
  }

  lemma {:induction false} NoWayBack(t: Table, steps: seq<Step>, id: string)
    requires id in t && AllLegal(t, steps)
    ensures id in AfterAll(t, steps) && Onwards(t[id], AfterAll(t, steps)[id])
    decreases steps
  {
    if steps != [] {
      var u := Exec(t, steps[0]);
      assert id in u && Onwards(t[id], u[id]);
      NoWayBack(u, steps[1..], id);
    }
  }

  /** A request that is over changes its status only by one of the two updates
      that go by id alone. */
  lemma OverChangesIff(t: Table, s: Step, id: string)
    requires id in t && Legal(t, s) && !Open(t[id])
    ensures Exec(t, s)[id].status != t[id].status <==>
      (s.Execute? && s.id == id && t[id].status != Executed)
      || (s.CancelIds? && id in s.ids && t[id].status != Cancelled)
  {
  }

  lemma StepKeepsPayload(s: Step, id: string, r: Row)
    requires s != ClearBlob(id) && Open(Becomes(s, id, r))
    ensures Open(r) && Becomes(s, id, r).visible == r.visible && Becomes(s, id, r).blob == r.blob
  {
  }

  /** While it is open a request holds its full payload, whatever happens around
      it, if no call that overlaps clears its blob. */
  lemma {:induction false} OpenKeepsPayload(t: Table, steps: seq<Step>, id: string)
    requires id in t && AllLegal(t, steps) && ClearBlob(id) !in steps
    ensures id in AfterAll(t, steps)
    ensures Open(AfterAll(t, steps)[id]) ==>
      Open(t[id]) && AfterAll(t, steps)[id].visible == t[id].visible && AfterAll(t, steps)[id].blob == t[id].blob
    decreases steps
  {
    if steps != [] {
      var s, u := steps[0], Exec(t, steps[0]);
      assert s in steps && u[id] == Becomes(s, id, t[id]);
      OpenKeepsPayload(u, steps[1..], id);
      if Open(u[id]) { StepKeepsPayload(s, id, t[id]); }
    }
  }

  /** A call clears a blob only after it has tried to approve the request. */
  predicate ClearsAfterApprove(steps: seq<Step>, id: string)
  {
    forall j :: 0 <= j < |steps| && steps[j] == ClearBlob(id) ==>
      exists i :: 0 <= i < j && steps[i].Approve? && steps[i].id == id
  }

  /** A request that was addressed by an approval is never pending again. */
  lemma {:induction false} ApprovedIsNotPending(t: Table, steps: seq<Step>, id: string, i: nat)
    requires id in t && AllLegal(t, steps) && i < |steps| && steps[i].Approve? && steps[i].id == id
    ensures id in AfterAll(t, steps) && AfterAll(t, steps)[id].status != Pending
    decreases steps
  {
    var u := Exec(t, steps[0]);
    if i == 0 {
      assert u[id].status != Pending;
      NoWayBack(u, steps[1..], id);
    } else {
      ApprovedIsNotPending(u, steps[1..], id, i - 1);
    }
  }

  /** A pending request holds exactly what was submitted, under every interleaving
      of calls, so the stored hash is that of the payload its handler would get. */
  lemma PendingHoldsSubmission(t: Table, steps: seq<Step>, id: string)
    requires id in t && AllLegal(t, steps) && ClearsAfterApprove(steps, id)
    requires id in AfterAll(t, steps) && AfterAll(t, steps)[id].status == Pending
    ensures FullOf(AfterAll(t, steps)[id]) == FullOf(t[id]) && AfterAll(t, steps)[id].hash == t[id].hash
  {
    if ClearBlob(id) in steps {
      var j :| 0 <= j < |steps| && steps[j] == ClearBlob(id);
      var i :| 0 <= i < j && steps[i].Approve? && steps[i].id == id;
      ApprovedIsNotPending(t, steps, id, i);
    } else {
      OpenKeepsPayload(t, steps, id);
      NoWayBack(t, steps, id);
    }
  }

  /** What the handler of an approval is given is what was submitted, and its hash
      is the stored one, whatever happened while the request was pending. */
  lemma SubmissionReachesHandler(t: Table, steps: seq<Step>, id: string, p: Payload, hash: Payload -> string, now: int)
    requires id in t && FullOf(t[id]) == p && t[id].hash == hash(p)
    requires AllLegal(t, steps) && ClearsAfterApprove(steps, id)
    requires id in AfterAll(t, steps) && AfterAll(t, steps)[id].status == Pending
    ensures var r := Exec(AfterAll(t, steps), Approve(id, now))[id];
      r.status == Approved && FullOf(r) == p && hash(FullOf(r)) == r.hash
  {
    PendingHoldsSubmission(t, steps, id);
    assert Exec(AfterAll(t, steps), Approve(id, now))[id] == Updated(Approve(id, now), AfterAll(t, steps)[id]);
  }

  // ------------------------------------------------------------ calls that overlap

  /** What an approval hands over, whatever other calls did before it reads the row:
      the submitted payload exactly if the blob is still there or every secret was
      itself the mask. An overlapping approval, rejection, cancellation or expiry
      takes the blob, and the approval does not notice. */
  lemma GivenPayloadIff(t: Table, steps: seq<Step>, id: string, p: Payload, fields: seq<Meta>)
    requires id in t && AllLegal(t, steps)
    requires t[id].visible == PublicPart(p, fields) && t[id].blob == Encrypt(SecretPart(p, fields))
    ensures id in AfterAll(t, steps)
    ensures FullOf(AfterAll(t, steps)[id]) == p <==>
      AfterAll(t, steps)[id].blob == t[id].blob || forall k <- p :: Hidden(k, p[k], fields) ==> p[k] == MASKED
  {
    NoWayBack(t, steps, id);
    var r := AfterAll(t, steps)[id];
    assert r.visible == PublicPart(p, fields) && (r.blob == t[id].blob || r.blob == None);
    StoredIsFull(p, fields);
    WithoutBlobIff(p, fields);
  }

  /** The statements that decide, suspend or execute a pending request. */
  predicate Decides(s: Step, id: string, r: Row)
  {
    !s.ClearBlob? && Where(s, id, r)
  }

  lemma PendingStep(s: Step, id: string, r: Row, like: Row)
    requires r.status == Pending && like == r.(blob := like.blob)
    ensures Becomes(s, id, r).status == Pending <==> !Decides(s, id, like)
    ensures !Decides(s, id, like) ==> like == Becomes(s, id, r).(blob := like.blob)
  {
  }

  lemma {:induction false} PendingRun(t: Table, steps: seq<Step>, id: string, like: Row)
    requires id in t && AllLegal(t, steps) && t[id].status == Pending && like == t[id].(blob := like.blob)
    ensures id in AfterAll(t, steps)
    ensures AfterAll(t, steps)[id].status == Pending <==> forall s <- steps :: !Decides(s, id, like)
    decreases steps
  {
    if steps != [] {
      var s, u := steps[0], Exec(t, steps[0]);
      assert s in steps;
      NoWayBack(u, steps[1..], id);
      PendingStep(s, id, t[id], like);
      if !Decides(s, id, like) {
        PendingRun(u, steps[1..], id, like);
        assert forall r :: r in steps ==> r == s || r in steps[1..];
      }
    }
  }

  /** The update of an approval finds the request that its call saw pending exactly if
      none of the statements in between meant that request. */
  lemma ApprovalTakesEffectIff(t: Table, steps: seq<Step>, id: string, now: int)
    requires id in t && AllLegal(t, steps) && t[id].status == Pending
    ensures id in AfterAll(t, steps)
    ensures Exec(AfterAll(t, steps), Approve(id, now))[id] != AfterAll(t, steps)[id]
       <==> forall s <- steps :: !Decides(s, id, t[id])
  {
    PendingRun(t, steps, id, t[id]);
  }

  /** The statements that take the blob of a request that is no longer open. */
  predicate Takes(s: Step, id: string)
  {
    s == ClearBlob(id) || (s.Execute? && s.id == id) || (s.CancelIds? && id in s.ids)
  }

  lemma ClosedStep(s: Step, id: string, r: Row)
    requires !Open(r) && !s.Insert?
    ensures Becomes(s, id, r).blob == if Takes(s, id) then None else r.blob
    ensures !Open(Becomes(s, id, r))
  {
  }

  /** Once a request is no longer open, it keeps its blob exactly as long as none of
      these statements addresses it. */
  lemma {:induction false} ClosedKeepsBlobIff(t: Table, steps: seq<Step>, id: string)
    requires id in t && AllLegal(t, steps) && !Open(t[id]) && t[id].blob.Some?
    ensures id in AfterAll(t, steps)
    ensures AfterAll(t, steps)[id].blob == t[id].blob <==> forall s <- steps :: !Takes(s, id)
    decreases steps
  {
    if steps != [] {
      var s, u := steps[0], Exec(t, steps[0]);
      assert s in steps;
      if !s.Insert? { ClosedStep(s, id, t[id]); }
      NoWayBack(u, steps[1..], id);
      if !Takes(s, id) {
        ClosedKeepsBlobIff(u, steps[1..], id);
        assert forall r :: r in steps ==> r == s || r in steps[1..];
      }
    }
  }

  /** What a handler is given that reads an approved request after any statements of
      other calls: the submission exactly if none of them took the blob, as another
      approver's execution does, or every secret was itself the mask. */
  lemma LateHandlerIff(t: Table, steps: seq<Step>, id: string, p: Payload, fields: seq<Meta>)
    requires id in t && AllLegal(t, steps) && !Open(t[id])
    requires t[id].visible == PublicPart(p, fields) && t[id].blob == Encrypt(SecretPart(p, fields))
    ensures id in AfterAll(t, steps)
    ensures FullOf(AfterAll(t, steps)[id]) == p <==>
      (forall s <- steps :: !Takes(s, id)) || forall k <- p :: Hidden(k, p[k], fields) ==> p[k] == MASKED
  {
    GivenPayloadIff(t, steps, id, p, fields);
    if t[id].blob.Some? {
      ClosedKeepsBlobIff(t, steps, id);
    } else {
      forall k | k in p ensures !Hidden(k, p[k], fields) {
        assert Hidden(k, p[k], fields) ==> k in SecretPart(p, fields);
      }
    }
  }

  lemma {:induction false} ClearedStaysCleared(t: Table, steps: seq<Step>, id: string)
    requires id in t && AllLegal(t, steps) && ClearBlob(id) in steps
    ensures id in AfterAll(t, steps) && AfterAll(t, steps)[id].blob == None
    decreases steps
  {
    var u := Exec(t, steps[0]);
    if steps[0] == ClearBlob(id) {
      assert u[id].blob == None;
      NoWayBack(u, steps[1..], id);
    } else {
      ClearedStaysCleared(u, steps[1..], id);
    }
  }

  /** A request that is still open has kept its secrets exactly if no call cleared
      its blob meanwhile; a suspended one can lose them, see below. */
  lemma OpenKeepsBlobIff(t: Table, steps: seq<Step>, id: string)
    requires id in t && AllLegal(t, steps) && t[id].blob.Some?
    requires id in AfterAll(t, steps) && Open(AfterAll(t, steps)[id])
    ensures AfterAll(t, steps)[id].blob == t[id].blob <==> ClearBlob(id) !in steps
  {
    if ClearBlob(id) in steps { ClearedStaysCleared(t, steps, id); } else { OpenKeepsPayload(t, steps, id); }
  }

  /** The case in which an open request has lost them: it is suspended while an
      approval runs whose handler then fails. */
  lemma SuspendedLosesSecrets(t: Table, id: string, before: int, now: int)
    requires id in t && t[id].status == Pending
    ensures var s := Suspend(t[id].actionType, t[id].target, before);
      var u := Exec(Exec(Exec(t, s), Approve(id, now)), ClearBlob(id));
      u[id].status == Suspended && u[id].blob == None
  {
    var s := Suspend(t[id].actionType, t[id].target, before);
    assert Exec(t, s)[id].status == Suspended;
  }

  // ------------------------------------------------------------------ resubmission

  /** The payload of a resubmission: the old public part, the overrides over it, the
      old secrets over both. */
  function Resubmitted(r: Row, overrides: Payload): Payload
  {
    r.visible + overrides + Decrypt(r.blob)
  }

  lemma WithoutOverrides(r: Row)
    ensures Resubmitted(r, map[]) == FullOf(r)
  {
    assert r.visible + map[] == r.visible;
  }

  /** Without overrides a request with its blob is resubmitted as it was, even if
      the field metadata has changed in between. */
  lemma ResubmitKeepsPayload(r: Row, p: Payload, fields: seq<Meta>)
    requires r.visible == PublicPart(p, fields) && r.blob == Encrypt(SecretPart(p, fields))
    ensures Resubmitted(r, map[]) == p
  {
    StoredIsFull(p, fields);
    assert r.visible + map[] == r.visible;
  }

  /** From a submission through any run of statements: resubmitting without overrides
      submits the same payload exactly if the blob is still there, as after a
      suspension, or every secret was itself the mask. */
  lemma ResubmitAfterRunIff(t: Table, steps: seq<Step>, id: string, p: Payload, fields: seq<Meta>)
    requires id in t && AllLegal(t, steps)
    requires t[id].visible == PublicPart(p, fields) && t[id].blob == Encrypt(SecretPart(p, fields))
    ensures id in AfterAll(t, steps)
    ensures Resubmitted(AfterAll(t, steps)[id], map[]) == p <==>
      AfterAll(t, steps)[id].blob == t[id].blob || forall k <- p :: Hidden(k, p[k], fields) ==> p[k] == MASKED
  {
    GivenPayloadIff(t, steps, id, p, fields);
    WithoutOverrides(AfterAll(t, steps)[id]);
  }

  /** Without its blob, as after a rejection, it is so exactly if every secret was
      itself the mask. */
  lemma ResubmitRejectedIff(r: Row, p: Payload, fields: seq<Meta>)
    requires r.visible == PublicPart(p, fields) && r.blob == None
    ensures Resubmitted(r, map[]) == p <==> forall k <- p :: Hidden(k, p[k], fields) ==> p[k] == MASKED
  {
    WithoutBlobIff(p, fields);
    assert r.visible + map[] == r.visible;
  }

  /** An override takes effect exactly if the key is no old secret, or has its old
      value: a secret cannot be replaced while the old blob is there. */
  lemma OverrideTakesEffectIff(r: Row, overrides: Payload, k: string)
    requires k in overrides
    ensures k in Resubmitted(r, overrides)
    ensures Resubmitted(r, overrides)[k] == overrides[k] <==>
      k !in Decrypt(r.blob) || Decrypt(r.blob)[k] == overrides[k]
  {
  }

  // --------------------------------------------------------------- the operations

  datatype Outcome =
    | NotFound | WrongStatus | SelfApprovalDisabled | ReasonRequired
    | HandlerFailed(given: Payload) | Ran(given: Payload, job: string)

  /** A request about the VM or container: the node and number stand in its payload. */
  predicate ConcernsVm(r: Row, node: string, vmid: int)
  {
    r.actionType in {"vm_delete", "lxc_delete", "template_delete", "owner_delete_request", "owner_adopt_request"}
    && "node_id" in r.visible && r.visible["node_id"] == Str(node)
    && "vmid" in r.visible && r.visible["vmid"] == Num(vmid)
  }

  /** A request that is over, and since when. */
  function Over(r: Row, status: Status, now: int): Row
  {
    r.(status := status, decidedAt := Some(now), blob := None)
  }

  function Meant(t: Table, s: Step): set<string>
  {
    set id <- t | Where(s, id, t[id])
  }

  lemma MeantChange(t: Table, s: Step)
    requires !s.Insert? && forall id <- t :: Where(s, id, t[id]) ==> Updated(s, t[id]) != t[id]
    ensures Meant(t, s) == set id <- t | Exec(t, s)[id] != t[id]
  {
  }

  lemma NoneMeant(t: Table, s: Step)
    requires !s.Insert? && Meant(t, s) == {}
    ensures Exec(t, s) == t
  {
    forall id | id in t ensures !Where(s, id, t[id]) { assert id !in Meant(t, s); }
    assert Exec(t, s).Keys == t.Keys;
  }

  /** What a bulk cancellation makes of a request. */
  function AfterCancel(scope: Scope, r: Row, now: int): Row
  {
    if r.status != Pending && r.status != Suspended then r
    else if scope.OfUser? && r.requester != scope.user then r
    else if scope.OfTarget? && (r.actionType != scope.kind || r.target != scope.name) then r
    else if scope.OfStack? && r.actionType != "stack_edit" && r.actionType != "stack_delete" then r
    else if scope.OfStack? && r.target != scope.stack then r
    else Over(r, Cancelled, now)
  }

  lemma CancelledRow(scope: Scope, id: string, r: Row, now: int)
    ensures Becomes(CancelAll(scope, now), id, r) == AfterCancel(scope, r, now)
  {
  }

  lemma ApprovedAndRun(t: Table, id: string, now: int, job: string)
    requires id in t && t[id].status == Pending
    ensures Exec(Exec(t, Approve(id, now)), Execute(id, job)) == t[id := Over(t[id], Executed, now).(job := Some(job))]
  {
  }

  lemma ApprovedAndCleared(t: Table, id: string, now: int)
    requires id in t && t[id].status == Pending
    ensures Exec(Exec(t, Approve(id, now)), ClearBlob(id)) == t[id := Over(t[id], Approved, now)]
  {
  }

  class Requests {
    var table: Table

    constructor ()
      ensures table == map[]
    {
      table := map[];
    }

    /** `create_approval`; `required` says that the workflow is on and the action's
        rule asks for an approval. */
    method CreateApproval(id: string, kind: string, target: string, p: Payload, fields: seq<Meta>,
                          hash: Payload -> string, required: bool, requester: int, expiresAt: int,
                          allowSelf: bool) returns (created: bool)
      requires id !in table
      modifies this
      ensures created == required
      ensures !required ==> table == old(table)
      ensures required ==>
        id in table && table == old(table)[id := table[id]] && table[id].status == Pending
        && FullOf(table[id]) == p && table[id].hash == hash(p)
        && forall k <- p :: Hidden(k, p[k], fields) ==> k in table[id].visible && table[id].visible[k] == MASKED
      // whose request it is, about what, and until when
      ensures required ==>
        table[id].requester == requester && table[id].allowSelf == allowSelf && table[id].parent == None
        && table[id].actionType == kind && table[id].target == target && table[id].expiresAt == expiresAt
    {
      if !required {
        return false;
      }
      var visible, secrets := SplitPayload(p, fields);
      var row := Row(kind, target, visible, hash(p), Encrypt(secrets), requester, expiresAt, Pending, None,
                     allowSelf, None, None);
      StoredIsFull(p, fields);
      table := Exec(table, Insert(id, row));
      return true;
    }

    /** `approve_approval`, when no other call overlaps it. */
    method ApproveApproval(id: string, decider: int, reason: string, selfSupported: bool, now: int,
                           handler: Payload -> Option<string>) returns (r: Outcome)
      modifies this
      // who is refused, and why
      ensures r == NotFound <==> id !in old(table)
      ensures r == WrongStatus <==> id in old(table) && old(table)[id].status != Pending
      ensures r == SelfApprovalDisabled <==>
        id in old(table) && old(table)[id].status == Pending && old(table)[id].requester == decider
        && !(old(table)[id].allowSelf && selfSupported)
      ensures r == ReasonRequired <==>
        id in old(table) && old(table)[id].status == Pending && old(table)[id].requester == decider
        && old(table)[id].allowSelf && selfSupported && |Strip(reason)| < 10
      ensures r.Ran? || r.HandlerFailed? <==>
        id in old(table) && old(table)[id].status == Pending
        && (old(table)[id].requester != decider
            || (old(table)[id].allowSelf && selfSupported && |Strip(reason)| >= 10))
      ensures !r.Ran? && !r.HandlerFailed? ==> table == old(table)
      // the handler is given the payload the pending request held
      ensures r.Ran? || r.HandlerFailed? ==> r.given == FullOf(old(table)[id])
      ensures r.Ran? ==>
        handler(r.given) == Some(r.job)
        && table == old(table)[id := Over(old(table)[id], Executed, now).(job := Some(r.job))]
      ensures r.HandlerFailed? ==>
        handler(r.given) == None
        && table == old(table)[id := Over(old(table)[id], Approved, now)]
    {
      if id !in table {
        return NotFound;
      }
      var approval := table[id];
      if approval.status != Pending {
        return WrongStatus;
      }
      if approval.requester == decider {
        if !(approval.allowSelf && selfSupported) {
          return SelfApprovalDisabled;
        }
        if |Strip(reason)| < 10 {
          return ReasonRequired;
        }
      }
      table := Exec(table, Approve(id, now));
      var read := table[id];
      var given := Merge(read.visible, Decrypt(read.blob));
      var job := handler(given);
      if job == None {
        ApprovedAndCleared(old(table), id, now);
        table := Exec(table, ClearBlob(id));
        return HandlerFailed(given);
      }
      ApprovedAndRun(old(table), id, now, job.value);
      table := Exec(table, Execute(id, job.value));
      return Ran(given, job.value);
    }

    /** `resubmit_approval`: a rejected or suspended request is submitted anew. */
    method ResubmitApproval(id: string, newId: string, overrides: Payload, fields: seq<Meta>, hash: Payload -> string,
                            requester: int, expiresAt: int, allowSelf: bool) returns (created: bool)
      requires newId !in table
      modifies this
      ensures created <==> id in old(table) && (old(table)[id].status == Rejected || old(table)[id].status == Suspended)
      ensures !created ==> table == old(table)
      ensures created ==>
        newId in table && table == old(table)[newId := table[newId]]
        && table[newId].status == Pending && table[newId].parent == Some(id)
        && FullOf(table[newId]) == Resubmitted(old(table)[id], overrides)
        && table[newId].hash == hash(Resubmitted(old(table)[id], overrides))
        && table[newId].actionType == old(table)[id].actionType && table[newId].target == old(table)[id].target
        && table[newId].requester == requester && table[newId].expiresAt == expiresAt
        && table[newId].allowSelf == allowSelf
    {
      if id !in table || (table[id].status != Rejected && table[id].status != Suspended) {
        return false;
      }
      var prior := table[id];
      var merged := prior.visible + overrides;
      if prior.blob.Some? {
        merged := merged + prior.blob.value;
      }
      assert merged == Resubmitted(prior, overrides);
      var visible, secrets := SplitPayload(merged, fields);
      var row := Row(prior.actionType, prior.target, visible, hash(merged), Encrypt(secrets), requester, expiresAt,
                     Pending, None, allowSelf, Some(id), None);
      StoredIsFull(merged, fields);
      table := Exec(table, Insert(newId, row));
      return true;
    }

    /** `reject_approval` and, for open requests, `cancel_approval` */
    method Decide(id: string, cancel: bool, now: int) returns (ok: bool)
      modifies this
      ensures ok <==>
        id in old(table) && (old(table)[id].status == Pending || (cancel && old(table)[id].status == Suspended))
      ensures table == if !ok then old(table)
        else old(table)[id := Over(old(table)[id], if cancel then Cancelled else Rejected, now)]
    {
      if id !in table || !(if cancel then Open(table[id]) else table[id].status == Pending) {
        return false;
      }
      table := Exec(table, if cancel then Cancel(id, now) else Reject(id, now));
      return true;
    }

    /** One UPDATE that changes every row it finds, skipped if the same SELECT finds
        none; the count is the number of rows. */
    method Update(s: Step) returns (count: nat)
      requires !s.Insert? && forall id <- table :: Where(s, id, table[id]) ==> Updated(s, table[id]) != table[id]
      modifies this
      ensures table.Keys == old(table.Keys) && forall id <- table :: table[id] == Becomes(s, id, old(table)[id])
      ensures count == |set id <- old(table) | table[id] != old(table)[id]|
    {
      var ids := Meant(table, s);
      count := |ids|;
      MeantChange(table, s);
      if ids == {} { NoneMeant(table, s); }
      if ids != {} {
        table := Exec(table, s);
      }
    }

    /** `on_vm_lxc_delete`: reads the ids first, then updates by id alone. */
    method CancelForVm(node: string, vmid: int, now: int) returns (count: nat)
      modifies this
      ensures table.Keys == old(table.Keys)
      ensures forall id <- table ::
        table[id] == if (old(table)[id].status == Pending || old(table)[id].status == Suspended)
           && (old(table)[id].actionType == "vm_delete" || old(table)[id].actionType == "lxc_delete"
               || old(table)[id].actionType == "template_delete" || old(table)[id].actionType == "owner_delete_request"
               || old(table)[id].actionType == "owner_adopt_request")
           && "node_id" in old(table)[id].visible && old(table)[id].visible["node_id"] == Str(node)
           && "vmid" in old(table)[id].visible && old(table)[id].visible["vmid"] == Num(vmid)
        then Over(old(table)[id], Cancelled, now)
        else old(table)[id]
      ensures count == |set id <- old(table) | table[id] != old(table)[id]|
    {
      var ids := set id <- table | Open(table[id]) && ConcernsVm(table[id], node, vmid);
      count := Update(CancelIds(ids, now));
    }

    /** `expire_overdue_approvals` */
    method ExpireOverdue(now: int) returns (count: nat)
      modifies this
      ensures table.Keys == old(table.Keys)
      ensures forall id <- table ::
        table[id] == if old(table)[id].status == Pending && old(table)[id].expiresAt < now
        then Over(old(table)[id], Expired, now)
        else old(table)[id]
      ensures count == |set id <- old(table) | table[id] != old(table)[id]|
    {
      count := Update(Expire(now));
    }

    /** The bulk cancellations: for a deleted user, playbook, template or stack, and for
        the whole workflow. */
    method CancelScope(scope: Scope, now: int) returns (count: nat)
      modifies this
      ensures table.Keys == old(table.Keys)
      ensures forall id <- table :: table[id] == AfterCancel(scope, old(table)[id], now)
      ensures count == |set id <- old(table) | table[id] != old(table)[id]|
    {
      forall id | id in table
        ensures Becomes(CancelAll(scope, now), id, table[id]) == AfterCancel(scope, table[id], now)
      {
        CancelledRow(scope, id, table[id], now);
      }
      count := Update(CancelAll(scope, now));
    }

    /** `disable_workflow`, the part on requests: no open request is left, so no
        secret of one is. */
    method DisableWorkflow(now: int) returns (count: nat)
      modifies this
      ensures table.Keys == old(table.Keys)
      ensures forall id <- table ::
        table[id] == if old(table)[id].status == Pending || old(table)[id].status == Suspended
          then Over(old(table)[id], Cancelled, now) else old(table)[id]
      ensures count == |set id <- old(table) | table[id] != old(table)[id]|
      ensures forall id <- table :: !Open(table[id])
    {
      count := CancelScope(Everything, now);
    }

    /** `_suspend_pending_for_rule`, the part on requests: a changed rule takes the
        pending requests of its action out of the queue, with their secrets. */
    method SuspendForRule(kind: string, name: string, now: int) returns (count: nat)
      modifies this
      ensures table.Keys == old(table.Keys)
      ensures forall id <- table ::
        table[id] == if old(table)[id].status == Pending && old(table)[id].actionType == kind
             && old(table)[id].target == name
          then old(table)[id].(status := Suspended, decidedAt := Some(now)) else old(table)[id]
      ensures count == |set id <- old(table) | table[id] != old(table)[id]|
    {
      count := Update(Suspend(kind, name, now));
    }
  }
}
