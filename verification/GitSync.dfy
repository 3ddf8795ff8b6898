/** A sync pass of one repository type: items of the repository against the target
    directory, the source rows and the conflict rows. */
module GitSync {
  import opened Options

  type Content = string

  /** How copying an item ends; a failure can leave anything, or nothing, behind. */
  datatype Copy = Copied | Failed(left: Option<Content>)

  datatype Item = Item(id: string, content: Content, copy: Copy)

  /** `resolved` is the resolution, absent while the conflict is open. */
  datatype Conflict = Conflict(item: string, hash: string, resolved: Option<string>)

  datatype World = World(target: map<string, Content>, sources: map<string, string>, conflicts: seq<Conflict>)

  predicate OpenAt(conflicts: seq<Conflict>, id: string, i: nat)
  {
    i < |conflicts| && conflicts[i].item == id && conflicts[i].resolved == None
  }

  predicate HasOpen(conflicts: seq<Conflict>, id: string)
  {
    exists i: nat | i < |conflicts| :: OpenAt(conflicts, id, i)
  }

  predicate OneOpen(conflicts: seq<Conflict>)
  {
    forall i, j :: 0 <= i < j < |conflicts| && conflicts[i].resolved == None && conflicts[j].resolved == None
                   ==> conflicts[i].item != conflicts[j].item
  }

  /** `_register_conflict`: an open conflict stays as it is, with its first hash. */
  function Register(conflicts: seq<Conflict>, id: string, hash: string): seq<Conflict>
  {
    if HasOpen(conflicts, id) then conflicts else conflicts + [Conflict(id, hash, None)]
  }

  function CopyTo(target: map<string, Content>, item: Item): map<string, Content>
  {
    match item.copy
    case Copied => target[item.id := item.content]
    case Failed(Some(left)) => target[item.id := left]
    case Failed(None) => target - {item.id}
  }

  /** One item of a pass at commit `head`. */
  function Visit(w: World, head: string, item: Item): World
  {
    if item.id !in w.sources && item.id in w.target then
      w.(conflicts := Register(w.conflicts, item.id, head))
    else if item.id in w.sources && w.sources[item.id] == head then w
    else
      w.(target := CopyTo(w.target, item),
         sources := if item.copy == Copied then w.sources[item.id := head] else w.sources)
  }

  function Pass(w: World, head: string, items: seq<Item>): World
  {
    if items == [] then w else Visit(Pass(w, head, items[..|items| - 1]), head, items[|items| - 1])
  }

  /** Items are the direct subdirectories of one directory. */
  predicate Distinct(items: seq<Item>)
  {
    forall i, j :: 0 <= i < j < |items| ==> items[i].id != items[j].id
  }

  // ------------------------------------------------------- one item at a time

  /** What the tables and the directory say of one item. */
  datatype View = View(target: Option<Content>, source: Option<string>, open: bool)

  function ViewOf(w: World, id: string): View
  {
    View(if id in w.target then Some(w.target[id]) else None,
         if id in w.sources then Some(w.sources[id]) else None,
         HasOpen(w.conflicts, id))
  }

  datatype Kind = Clash | Current | Synced | Broken

  function KindOf(v: View, head: string, item: Item): Kind
  {
    if v.source == None && v.target.Some? then Clash
    else if v.source == Some(head) then Current
    else if item.copy == Copied then Synced else Broken
  }

  /** A pass, seen from one item. */
  function Visited(v: View, head: string, item: Item): View
  {
    match KindOf(v, head, item)
    case Clash => v.(open := true)
    case Current => v
    case Synced => v.(target := Some(item.content), source := Some(head))
    case Broken => v.(target := if item.copy.Failed? then item.copy.left else v.target)
  }

  lemma RegisterOpens(conflicts: seq<Conflict>, id: string, hash: string, other: string)
    ensures HasOpen(Register(conflicts, id, hash), other) <==> other == id || HasOpen(conflicts, other)
  {
    var after := Register(conflicts, id, hash);
    if !HasOpen(conflicts, id) { assert OpenAt(after, id, |conflicts|); }
    if HasOpen(conflicts, other) {
      var i: nat :| i < |conflicts| && OpenAt(conflicts, other, i);
      assert OpenAt(after, other, i);
    }
    if other != id && HasOpen(after, other) {
      var i: nat :| i < |after| && OpenAt(after, other, i);
      assert OpenAt(conflicts, other, i);
    }
  }

  lemma VisitView(w: World, head: string, item: Item, id: string)
    ensures ViewOf(Visit(w, head, item), id)
         == if id == item.id then Visited(ViewOf(w, id), head, item) else ViewOf(w, id)
  {
    RegisterOpens(w.conflicts, item.id, head, id);
  }

  predicate Listed(items: seq<Item>, id: string)
  {
    exists item <- items :: item.id == id
  }

  /** An item that is not in the repository is left alone by a pass. */
  lemma {:induction false} UnlistedUntouched(w: World, head: string, items: seq<Item>, id: string)
    requires !Listed(items, id)
    ensures ViewOf(Pass(w, head, items), id) == ViewOf(w, id)
  {
    if items != [] {
      var front, last := items[..|items| - 1], items[|items| - 1];
      assert last in items;
      VisitView(Pass(w, head, front), head, last, id);
      UnlistedUntouched(w, head, front, id);
    }
  }

  /** Each item of the repository is treated by what held of it before the pass. */
  lemma {:induction false} PassView(w: World, head: string, items: seq<Item>, i: nat)
    requires Distinct(items) && i < |items|
    ensures ViewOf(Pass(w, head, items), items[i].id) == Visited(ViewOf(w, items[i].id), head, items[i])
  {
    var n := |items| - 1;
    var front, last, id := items[..n], items[n], items[i].id;
    VisitView(Pass(w, head, front), head, last, id);
    if i == n {
      UnlistedUntouched(w, head, front, id);
    } else {
      assert front[i] == items[i];
      PassView(w, head, front, i);
    }
  }

  // --------------------------------------------------------------- open conflicts

  lemma RegisterOneOpen(conflicts: seq<Conflict>, id: string, hash: string)
    requires OneOpen(conflicts)
    ensures OneOpen(Register(conflicts, id, hash))
  {
    if !HasOpen(conflicts, id) {
      forall i | 0 <= i < |conflicts| && conflicts[i].resolved == None ensures conflicts[i].item != id {
        assert !OpenAt(conflicts, id, i);
      }
    }
  }

  lemma {:induction false} PassOneOpen(w: World, head: string, items: seq<Item>)
    requires OneOpen(w.conflicts)
    ensures OneOpen(Pass(w, head, items).conflicts)
  {
    if items != [] {
      var front, last := items[..|items| - 1], items[|items| - 1];
      PassOneOpen(w, head, front);
      RegisterOneOpen(Pass(w, head, front).conflicts, last.id, head);
    }
  }

  predicate ExactlyOneOpen(conflicts: seq<Conflict>, id: string)
  {
    exists i: nat | i < |conflicts| ::
      OpenAt(conflicts, id, i) && forall j: nat | j < |conflicts| :: OpenAt(conflicts, id, j) ==> j == i
  }

  lemma OpenIsExactlyOne(conflicts: seq<Conflict>, id: string)
    requires OneOpen(conflicts) && HasOpen(conflicts, id)
    ensures ExactlyOneOpen(conflicts, id)
  {
    var i: nat :| i < |conflicts| && OpenAt(conflicts, id, i);
    forall j: nat | j < |conflicts| && OpenAt(conflicts, id, j) ensures j == i { }
  }

  // ------------------------------------------------------------ what a pass achieves

  /** A target item without a source row is never changed, and if it is in the
      repository exactly one conflict is open for it afterwards. */
  lemma LocalItemsKept(w: World, head: string, items: seq<Item>, id: string)
    requires Distinct(items) && OneOpen(w.conflicts) && id in w.target && id !in w.sources
    ensures var u := Pass(w, head, items);
      id in u.target && u.target[id] == w.target[id] && id !in u.sources
      && (Listed(items, id) ==> ExactlyOneOpen(u.conflicts, id))
  {
    PassOneOpen(w, head, items);
    if Listed(items, id) {
      var i :| 0 <= i < |items| && items[i].id == id;
      PassView(w, head, items, i);
      assert ViewOf(Pass(w, head, items), id) == ViewOf(w, id).(open := true);
      OpenIsExactlyOne(Pass(w, head, items).conflicts, id);
    } else {
      UnlistedUntouched(w, head, items, id);
      assert ViewOf(Pass(w, head, items), id) == ViewOf(w, id);
    }
  }

  /** Every other item of the repository has its source row at `head` unless its
      copy failed, and the repository's content if it was copied. */
  lemma OthersReachHead(w: World, head: string, items: seq<Item>, i: nat)
    requires Distinct(items) && i < |items| && !(items[i].id in w.target && items[i].id !in w.sources)
    ensures var u, item := Pass(w, head, items), items[i];
      && (item.id in u.sources && u.sources[item.id] == head
          <==> item.copy == Copied || (item.id in w.sources && w.sources[item.id] == head))
      && (item.id in w.sources && w.sources[item.id] == head ==> ViewOf(u, item.id) == ViewOf(w, item.id))
      && (item.copy == Copied && !(item.id in w.sources && w.sources[item.id] == head)
          ==> item.id in u.target && u.target[item.id] == item.content)
      && (item.copy != Copied ==> ViewOf(u, item.id).source == ViewOf(w, item.id).source)
  {
    PassView(w, head, items, i);
    var v, x := ViewOf(w, items[i].id), ViewOf(Pass(w, head, items), items[i].id);
    assert x == Visited(v, head, items[i]);
  }

  /** How many items of the repository are of a kind. */
  function Tally(w: World, head: string, items: seq<Item>, kind: Kind): nat
  {
    if items == [] then 0
    else
      var last := items[|items| - 1];
      Tally(w, head, items[..|items| - 1], kind) + (if KindOf(ViewOf(w, last.id), head, last) == kind then 1 else 0)
  }

  lemma TallyStep(w: World, head: string, items: seq<Item>, i: nat, kind: Kind)
    requires i < |items|
    ensures Tally(w, head, items[..i + 1], kind) == Tally(w, head, items[..i], kind)
            + (if KindOf(ViewOf(w, items[i].id), head, items[i]) == kind then 1 else 0)
  {
    assert items[..i + 1][..i] == items[..i] && items[..i + 1][i] == items[i];
  }

  lemma PassStep(w: World, head: string, items: seq<Item>, i: nat)
    requires i < |items|
    ensures Pass(w, head, items[..i + 1]) == Visit(Pass(w, head, items[..i]), head, items[i])
  {
    assert items[..i + 1][..i] == items[..i] && items[..i + 1][i] == items[i];
  }

  lemma {:induction false} TalliesAddUp(w: World, head: string, items: seq<Item>)
    ensures Tally(w, head, items, Clash) + Tally(w, head, items, Current) + Tally(w, head, items, Synced)
            + Tally(w, head, items, Broken) == |items|
  {
    if items != [] { TalliesAddUp(w, head, items[..|items| - 1]); }
  }

  /** A second pass at the same commit, after one in which no copy failed, changes nothing. */
  lemma SecondPassIdle(w: World, head: string, items: seq<Item>, again: seq<Item>)
    requires Distinct(items) && forall item <- items :: KindOf(ViewOf(w, item.id), head, item) != Broken
    requires forall item <- again :: Listed(items, item.id)
    ensures Pass(Pass(w, head, items), head, again) == Pass(w, head, items)
  {
    var u := Pass(w, head, items);
    forall item | item in again ensures Visit(u, head, item) == u {
      var i :| 0 <= i < |items| && items[i].id == item.id;
      PassView(w, head, items, i);
      assert ViewOf(u, item.id) == Visited(ViewOf(w, item.id), head, items[i]);
      assert items[i] in items;
    }
    IdlePass(u, head, again);
  }

  lemma {:induction false} IdlePass(u: World, head: string, items: seq<Item>)
    requires forall item <- items :: Visit(u, head, item) == u
    ensures Pass(u, head, items) == u
  {
    if items != [] {
      assert items[|items| - 1] in items;
      IdlePass(u, head, items[..|items| - 1]);
    }
  }

  /** The conflict rows of a pass: earlier ones stay as they are, and each new one is an
      open conflict at the commit of the pass, for a local item of the repository. */
  lemma {:induction false} HistoryKept(w: World, head: string, items: seq<Item>)
    requires Distinct(items)
    ensures var after := Pass(w, head, items).conflicts;
      w.conflicts <= after && forall k :: |w.conflicts| <= k < |after| ==>
        after[k].hash == head && after[k].resolved == None && Listed(items, after[k].item)
        && after[k].item in w.target && after[k].item !in w.sources && !HasOpen(w.conflicts, after[k].item)
  {
    if items != [] {
      var front, last := items[..|items| - 1], items[|items| - 1];
      HistoryKept(w, head, front);
      assert last in items && forall item <- front :: item in items;
      UnlistedUntouched(w, head, front, last.id);
      assert ViewOf(Pass(w, head, front), last.id) == ViewOf(w, last.id);
    }
  }

  predicate At(w: World, id: string, head: string)
  {
    id in w.sources && w.sources[id] == head
  }

  /** A first copy that fails is made up for by the next pass that can copy exactly
      if it left nothing behind. */
  lemma FailedFirstCopyIff(w: World, head: string, items: seq<Item>, i: nat, next: string, again: seq<Item>, j: nat)
    requires Distinct(items) && i < |items| && items[i].copy.Failed?
    requires items[i].id !in w.target && items[i].id !in w.sources
    requires Distinct(again) && j < |again| && again[j].id == items[i].id && again[j].copy == Copied
    ensures At(Pass(Pass(w, head, items), next, again), items[i].id, next) <==> items[i].copy.left == None
  {
    var u := Pass(w, head, items);
    PassView(w, head, items, i);
    PassView(u, next, again, j);
    assert ViewOf(Pass(u, next, again), items[i].id) == Visited(ViewOf(u, items[i].id), next, again[j]);
  }

  // -------------------------------------------------- the hash of an open conflict

  /** An open conflict for the item that carries the hash. */
  predicate OpenWith(conflicts: seq<Conflict>, id: string, hash: string)
  {
    exists i: nat | i < |conflicts| :: OpenAt(conflicts, id, i) && conflicts[i].hash == hash
  }

  lemma RegisterHash(conflicts: seq<Conflict>, id: string, head: string, other: string, hash: string)
    ensures OpenWith(Register(conflicts, id, head), other, hash) <==>
      OpenWith(conflicts, other, hash) || (other == id && hash == head && !HasOpen(conflicts, id))
  {
    var after := Register(conflicts, id, head);
    if !HasOpen(conflicts, id) { assert OpenAt(after, id, |conflicts|); }
    if OpenWith(conflicts, other, hash) {
      var i: nat :| i < |conflicts| && OpenAt(conflicts, other, i) && conflicts[i].hash == hash;
      assert OpenAt(after, other, i);
    }
    if OpenWith(after, other, hash) && !OpenWith(conflicts, other, hash) {
      var i: nat :| i < |after| && OpenAt(after, other, i) && after[i].hash == hash;
      assert i < |conflicts| ==> OpenAt(conflicts, other, i);
    }
  }

  lemma {:induction false} UnlistedHash(w: World, head: string, items: seq<Item>, id: string, hash: string)
    requires !Listed(items, id)
    ensures OpenWith(Pass(w, head, items).conflicts, id, hash) <==> OpenWith(w.conflicts, id, hash)
  {
    if items != [] {
      var front, last := items[..|items| - 1], items[|items| - 1];
      assert last in items;
      RegisterHash(Pass(w, head, front).conflicts, last.id, head, id, hash);
      UnlistedHash(w, head, front, id, hash);
    }
  }

  /** `_register_conflict` is documented to update the hash of an open conflict. It
      does not: after a pass the open conflict of a local item carries the commit
      exactly if none was open before, or the open one carried it already. */
  lemma {:induction false} ConflictHashIff(w: World, head: string, items: seq<Item>, i: nat)
    requires Distinct(items) && i < |items| && items[i].id in w.target && items[i].id !in w.sources
    ensures OpenWith(Pass(w, head, items).conflicts, items[i].id, head) <==>
      !HasOpen(w.conflicts, items[i].id) || OpenWith(w.conflicts, items[i].id, head)
  {
    var n := |items| - 1;
    var front, last, id := items[..n], items[n], items[i].id;
    var u := Pass(w, head, front);
    RegisterHash(u.conflicts, last.id, head, id, head);
    if i == n {
      UnlistedHash(w, head, front, id, head);
      UnlistedUntouched(w, head, front, id);
      assert ViewOf(u, id) == ViewOf(w, id);
    } else {
      assert front[i] == items[i];
      ConflictHashIff(w, head, front, i);
    }
  }

  // ------------------------------------------------------------ resolving a conflict

  /** `_apply_git_version`: `found` is the item at the root of the clone, if it is
      there. The hash recorded is the one of the conflict. */
  function Apply(w: World, c: Conflict, found: Option<Item>): World
  {
    if found == None then w
    else
      var item := found.value.(id := c.item);
      w.(target := CopyTo(w.target, item),
         sources := if item.copy == Copied then w.sources[c.item := c.hash] else w.sources)
  }

  function Resolve(w: World, c: nat, resolution: string, found: Option<Item>): World
  {
    if c >= |w.conflicts| then w
    else
      var u := if resolution == "git" then Apply(w, w.conflicts[c], found) else w;
      u.(conflicts := w.conflicts[c := w.conflicts[c].(resolved := Some(resolution))])
  }

  lemma ResolveOneOpen(w: World, c: nat, resolution: string, found: Option<Item>)
    requires OneOpen(w.conflicts)
    ensures OneOpen(Resolve(w, c, resolution, found).conflicts)
  {
  }

  lemma ResolveCloses(w: World, c: nat, resolution: string, found: Option<Item>)
    requires c < |w.conflicts| && OneOpen(w.conflicts) && w.conflicts[c].resolved == None
    ensures !HasOpen(Resolve(w, c, resolution, found).conflicts, w.conflicts[c].item)
  {
    var after := Resolve(w, c, resolution, found).conflicts;
    forall i: nat | i < |after| ensures !OpenAt(after, w.conflicts[c].item, i) { }
  }

  /** A conflict that is not resolved in favour of the repository is open again after
      the next pass exactly if the repository has the item and it is still a local
      one; the local version stays. */
  lemma LocalIsReopenedIff(w: World, c: nat, resolution: string, found: Option<Item>, head: string, items: seq<Item>)
    requires c < |w.conflicts| && OneOpen(w.conflicts) && w.conflicts[c].resolved == None
    requires Distinct(items) && resolution != "git"
    ensures var id, u := w.conflicts[c].item, Pass(Resolve(w, c, resolution, found), head, items);
      && (HasOpen(u.conflicts, id) <==> Listed(items, id) && id in w.target && id !in w.sources)
      && (id in w.target && id !in w.sources ==> id in u.target && u.target[id] == w.target[id])
  {
    var id, u := w.conflicts[c].item, Resolve(w, c, resolution, found);
    ResolveCloses(w, c, resolution, found);
    ResolveOneOpen(w, c, resolution, found);
    if Listed(items, id) {
      var i :| 0 <= i < |items| && items[i].id == id;
      PassView(u, head, items, i);
      assert ViewOf(Pass(u, head, items), id) == Visited(ViewOf(u, id), head, items[i]);
    } else {
      UnlistedUntouched(u, head, items, id);
      assert ViewOf(Pass(u, head, items), id) == ViewOf(u, id);
    }
    if id in w.target && id !in w.sources { LocalItemsKept(u, head, items, id); }
  }

  /** A conflict resolved in favour of the repository is opened again by the next
      pass exactly if the item was not at the root of the clone (a configured
      subdirectory is not looked at), or its copy failed and left something. */
  lemma GitIsReopenedIff(w: World, c: nat, found: Option<Item>, head: string, items: seq<Item>, i: nat)
    requires c < |w.conflicts| && OneOpen(w.conflicts) && w.conflicts[c].resolved == None
    requires Distinct(items) && i < |items| && items[i].id == w.conflicts[c].item
    requires items[i].id in w.target && items[i].id !in w.sources
    ensures HasOpen(Pass(Resolve(w, c, "git", found), head, items).conflicts, items[i].id)
       <==> found == None || (found.value.copy.Failed? && found.value.copy.left.Some?)
  {
    ResolveCloses(w, c, "git", found);
    var u := Resolve(w, c, "git", found);
    PassView(u, head, items, i);
    assert ViewOf(Pass(u, head, items), items[i].id) == Visited(ViewOf(u, items[i].id), head, items[i]);
  }

  /** After a conflict was resolved in favour of the repository, a pass leaves the item
      with the content of its commit exactly if that commit is not the one recorded
      with the conflict, or the copied content was the same: the hash recorded can be
      older than the content, and at that commit a pass takes it for current. */
  lemma ResolvedReachesHeadIff(w: World, c: nat, found: Item, head: string, items: seq<Item>, i: nat)
    requires c < |w.conflicts| && found.copy == Copied
    requires Distinct(items) && i < |items| && items[i].id == w.conflicts[c].item && items[i].copy == Copied
    ensures var id, u := items[i].id, Pass(Resolve(w, c, "git", Some(found)), head, items);
      && id in u.target && id in u.sources && u.sources[id] == head
      && (u.target[id] == items[i].content <==> head != w.conflicts[c].hash || found.content == items[i].content)
      && (head == w.conflicts[c].hash ==> u.target[id] == found.content)
  {
    var u := Resolve(w, c, "git", Some(found));
    PassView(u, head, items, i);
    assert ViewOf(u, items[i].id).source == Some(w.conflicts[c].hash);
    assert ViewOf(u, items[i].id).target == Some(found.content);
    assert ViewOf(Pass(u, head, items), items[i].id) == Visited(ViewOf(u, items[i].id), head, items[i]);
  }

  const LOCAL: World := World(map["web":= "local"], map[], [Conflict("web", "c1", None)])

  /** A conflict found at commit c1 is resolved when the clone is at c2; after a reset of
      the branch to c1 the item keeps the content of c2, recorded as that of c1. */
  lemma StaleContentStays()
    ensures var resolved := Resolve(LOCAL, 0, "git", Some(Item("web", "second", Copied)));
      var u := Pass(resolved, "c1", [Item("web", "first", Copied)]);
      "web" in u.target && u.target["web"] == "second" && "web" in u.sources && u.sources["web"] == "c1"
  {
    ResolvedReachesHeadIff(LOCAL, 0, Item("web", "second", Copied), "c1", [Item("web", "first", Copied)], 0);
  }

  // ------------------------------------------------------------------- whole runs

  datatype Action =
    | Sync(head: string, items: seq<Item>)
    | Settle(c: nat, resolution: string, found: Option<Item>)
    | Upload(id: string, content: Content)

  function After(w: World, a: Action): World
  {
    match a
    case Sync(head, items) => Pass(w, head, items)
    case Settle(c, resolution, found) => Resolve(w, c, resolution, found)
    case Upload(id, content) => w.(target := w.target[id := content])
  }

  function AfterAll(w: World, actions: seq<Action>): World
    decreases actions
  {
    if actions == [] then w else AfterAll(After(w, actions[0]), actions[1..])
  }

  predicate Proper(actions: seq<Action>)
  {
    forall a <- actions :: a.Sync? ==> Distinct(a.items)
  }

  /** Nobody uploads the item or decides for the repository's version of it. */
  predicate Spares(w: World, actions: seq<Action>, id: string)
    decreases actions
  {
    actions != [] ==>
      var a := actions[0];
      (a.Upload? ==> a.id != id)
      && (a.Settle? && a.c < |w.conflicts| && a.resolution == "git" ==> w.conflicts[a.c].item != id)
      && Spares(After(w, a), actions[1..], id)
  }

  /** Never two open conflicts for one item, whatever happens. */
  lemma {:induction false} OneOpenReached(w: World, actions: seq<Action>)
    requires OneOpen(w.conflicts)
    ensures OneOpen(AfterAll(w, actions).conflicts)
    decreases actions
  {
    if actions != [] {
      match actions[0] {
        case Sync(head, items) => PassOneOpen(w, head, items);
        case Settle(c, resolution, found) => ResolveOneOpen(w, c, resolution, found);
        case Upload(_, _) =>
      }
      OneOpenReached(After(w, actions[0]), actions[1..]);
    }
  }

  /** A local item survives any number of passes and resolutions unchanged, until
      somebody uploads it or decides for the repository's version. */
  lemma {:induction false} LocalItemSurvives(w: World, actions: seq<Action>, id: string)
    requires OneOpen(w.conflicts) && Proper(actions) && Spares(w, actions, id)
    requires id in w.target && id !in w.sources
    ensures var u := AfterAll(w, actions); id in u.target && u.target[id] == w.target[id] && id !in u.sources
    decreases actions
  {
    if actions != [] {
      var a, rest := actions[0], actions[1..];
      assert a in actions;
      match a {
        case Sync(head, items) =>
          LocalItemsKept(w, head, items, id);
          PassOneOpen(w, head, items);
        case Settle(c, resolution, found) => ResolveOneOpen(w, c, resolution, found);
        case Upload(_, _) =>
      }
      LocalItemSurvives(After(w, a), rest, id);
    }
  }

  /** A first copy that leaves something behind makes the item a local one for every
      later run: it keeps what was left, and each pass that lists it ends with
      exactly one open conflict for it. */
  lemma HalfCopyStaysLocal(w: World, head: string, items: seq<Item>, i: nat, actions: seq<Action>,
                           next: string, again: seq<Item>)
    requires OneOpen(w.conflicts) && Distinct(items) && i < |items| && items[i].copy.Failed? && items[i].copy.left.Some?
    requires items[i].id !in w.target && items[i].id !in w.sources
    requires Proper(actions) && Spares(Pass(w, head, items), actions, items[i].id)
    requires Distinct(again) && Listed(again, items[i].id)
    ensures var id, u := items[i].id, Pass(AfterAll(Pass(w, head, items), actions), next, again);
      id in u.target && u.target[id] == items[i].copy.left.value && id !in u.sources && ExactlyOneOpen(u.conflicts, id)
  {
    var id, half := items[i].id, Pass(w, head, items);
    PassView(w, head, items, i);
    assert ViewOf(half, id) == Visited(ViewOf(w, id), head, items[i]);
    PassOneOpen(w, head, items);
    LocalItemSurvives(half, actions, id);
    OneOpenReached(half, actions);
    LocalItemsKept(AfterAll(half, actions), next, again, id);
  }

  // -------------------------------------------------------------------- the loop

  class Store {
    var target: map<string, Content>
    var sources: map<string, string>
    var conflicts: seq<Conflict>

    function Now(): World
      reads this
    {
      World(target, sources, conflicts)
    }

    constructor ()
      ensures Now() == World(map[], map[], [])
    {
      target, sources, conflicts := map[], map[], [];
    }

    method RegisterConflict(id: string, hash: string)
      modifies this`conflicts
      ensures conflicts == Register(old(conflicts), id, hash)
    {
      for i := 0 to |conflicts|
        invariant forall j: nat | j < i :: !OpenAt(conflicts, id, j)
      {
        if conflicts[i].item == id && conflicts[i].resolved == None {
          assert OpenAt(conflicts, id, i);
          return;
        }
      }
      conflicts := conflicts + [Conflict(id, hash, None)];
    }

    /** The item loop of `_do_sync`; `failed` means the logged status. */
    method SyncItems(head: string, items: seq<Item>)
      returns (synced: nat, conflicted: nat, errors: seq<string>, failed: bool)
      requires Distinct(items)
      modifies this
      ensures Now() == Pass(old(Now()), head, items)
      ensures synced == Tally(old(Now()), head, items, Synced) && conflicted == Tally(old(Now()), head, items, Clash)
      ensures |errors| == Tally(old(Now()), head, items, Broken)
      ensures failed <==> synced == 0 && errors != []
    {
      synced, conflicted, errors := 0, 0, [];
      ghost var w := Now();
      for i := 0 to |items|
        invariant Now() == Pass(w, head, items[..i])
        invariant synced == Tally(w, head, items[..i], Synced) && conflicted == Tally(w, head, items[..i], Clash)
        invariant |errors| == Tally(w, head, items[..i], Broken)
      {
        var item := items[i];
        PassStep(w, head, items, i);
        TallyStep(w, head, items, i, Synced);
        TallyStep(w, head, items, i, Clash);
        TallyStep(w, head, items, i, Broken);
        UnlistedUntouched(w, head, items[..i], item.id);
        assert ViewOf(Now(), item.id) == ViewOf(w, item.id);
        if item.id !in sources && item.id in target {
          RegisterConflict(item.id, head);
          conflicted := conflicted + 1;
        } else if item.id in sources && sources[item.id] == head {
        } else {
          target := CopyTo(target, item);
          if item.copy == Copied {
            sources := sources[item.id := head];
            synced := synced + 1;
          } else {
            errors := errors + [item.id];
          }
        }
      }
      assert items[..|items|] == items;
      failed := errors != [] && synced == 0;
    }

    /** `resolve_conflict` */
    method ResolveConflict(c: nat, resolution: string, found: Option<Item>) returns (ok: bool)
      modifies this
      ensures ok <==> c < |old(conflicts)|
      ensures Now() == Resolve(old(Now()), c, resolution, found)
      ensures !ok ==> Now() == old(Now())
      ensures ok ==> conflicts == old(conflicts)[c := old(conflicts[c]).(resolved := Some(resolution))]
      ensures ok && !(resolution == "git" && found.Some?) ==> target == old(target) && sources == old(sources)
      ensures ok && resolution == "git" && found.Some? ==>
        var row := old(conflicts[c]);
        && target - {row.item} == old(target) - {row.item}
        && (found.value.copy == Copied ==>
          row.item in target && target[row.item] == found.value.content
          && sources == old(sources)[row.item := row.hash])
        && (found.value.copy != Copied ==> sources == old(sources))
    {
      if c >= |conflicts| {
        return false;
      }
      if resolution == "git" && found.Some? {
        var item := found.value.(id := conflicts[c].item);
        target := CopyTo(target, item);
        if item.copy == Copied {
          sources := sources[item.id := conflicts[c].hash];
        }
      }
      conflicts := conflicts[c := conflicts[c].(resolved := Some(resolution))];
      return true;
    }
  }
}
