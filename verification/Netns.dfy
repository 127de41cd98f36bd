/** Watching network namespaces (internal/netns/netns_linux.go) and attaching to them (cmd/ebpfview/flows_run.go). */
module NetnsEvents {
  datatype Handle = Handle(inode: nat, path: string, name: string)

  datatype Event = Added(handle: Handle) | Removed(handle: Handle)

  /** The inodes that are present after the events, starting from a set of present ones. */
  function Replay(present: set<nat>, events: seq<Event>): set<nat>
  {
    if events == [] then present
    else
      var before, last := Replay(present, events[..|events| - 1]), events[|events| - 1];
      if last.Added? then before + {last.handle.inode} else before - {last.handle.inode}
  }

  /** Only absent inodes are added and only present ones removed. */
  predicate Orderly(present: set<nat>, events: seq<Event>)
  {
    events == [] ||
    var front, last := events[..|events| - 1], events[|events| - 1];
    Orderly(present, front) && (last.Added? <==> last.handle.inode !in Replay(present, front))
  }

  lemma ReplayNext(present: set<nat>, events: seq<Event>, ev: Event)
    ensures Replay(present, events + [ev])
         == if ev.Added? then Replay(present, events) + {ev.handle.inode}
            else Replay(present, events) - {ev.handle.inode}
    ensures Orderly(present, events + [ev])
         == (Orderly(present, events) && (ev.Added? <==> ev.handle.inode !in Replay(present, events)))
  {
    assert (events + [ev])[..|events|] == events;
  }

  lemma {:induction false} ReplayConcat(present: set<nat>, a: seq<Event>, b: seq<Event>)
    ensures Replay(present, a + b) == Replay(Replay(present, a), b)
    ensures Orderly(present, a + b) <==> Orderly(present, a) && Orderly(Replay(present, a), b)
  {
    if b == [] {
      assert a + b == a;
    } else {
      var front, last := b[..|b| - 1], b[|b| - 1];
      ReplayConcat(present, a, front);
      assert a + b == (a + front) + [last];
      ReplayNext(present, a + front, last);
    }
  }

  /** What replaying adds was announced as added, and what it removes as removed. */
  lemma {:induction false} ReplayFinds(present: set<nat>, events: seq<Event>, inode: nat)
    ensures inode !in present && inode in Replay(present, events) ==>
      exists ev :: ev in events && ev.Added? && ev.handle.inode == inode
    ensures inode in present && inode !in Replay(present, events) ==>
      exists ev :: ev in events && ev.Removed? && ev.handle.inode == inode
  {
    if events != [] {
      ReplayFinds(present, events[..|events| - 1], inode);
      assert events[|events| - 1] in events;
    }
  }

  predicate AddedAt(events: seq<Event>, j: nat, inode: nat)
    requires j < |events|
  {
    events[j].Added? && events[j].handle.inode == inode
  }

  predicate RemovedSince(events: seq<Event>, j: nat, inode: nat)
  {
    exists k :: j <= k < |events| && events[k].Removed? && events[k].handle.inode == inode
  }

  lemma RemovedNext(events: seq<Event>, j: nat, ev: Event, inode: nat)
    requires j <= |events|
    ensures RemovedSince(events + [ev], j, inode)
       <==> RemovedSince(events, j, inode) || (ev.Removed? && ev.handle.inode == inode)
  {
    var all := events + [ev];
    assert forall k :: 0 <= k < |events| ==> all[k] == events[k];
    assert all[|events|] == ev;
  }

  lemma RemovedLater(events: seq<Event>, i: nat, j: nat, inode: nat)
    requires i <= j <= |events|
    requires !RemovedSince(events[..j], i, inode) && !RemovedSince(events, j, inode)
    ensures !RemovedSince(events, i, inode)
  {
    assert forall k :: i <= k < j ==> events[..j][k] == events[k];
  }

  /** Replaying gives the inodes that were added and not removed since. */
  lemma {:induction false} PresentExactly(events: seq<Event>, inode: nat)
    ensures inode in Replay({}, events)
       <==> exists j :: 0 <= j < |events| && AddedAt(events, j, inode) && !RemovedSince(events, j, inode)
  {
    if events != [] {
      var n := |events| - 1;
      var front, ev := events[..n], events[n];
      PresentExactly(front, inode);
      assert events == front + [ev];
      forall j | 0 <= j <= n
        ensures RemovedSince(events, j, inode) <==>
          RemovedSince(front, j, inode) || (ev.Removed? && ev.handle.inode == inode)
      {
        RemovedNext(front, j, ev, inode);
      }
      assert forall j :: 0 <= j < n ==> (AddedAt(events, j, inode) <==> AddedAt(front, j, inode));
      assert AddedAt(events, n, inode) <==> ev.Added? && ev.handle.inode == inode;
      assert !RemovedSince(front, n, inode);
    }
  }

  /** The namespaces known after a tick: those present, under the handles they were first seen with. */
  function KnownAfter(known: map<nat, Handle>, current: map<nat, Handle>): map<nat, Handle>
  {
    (current + known) - (known.Keys - current.Keys)
  }

  /** What a tick has to announce. */
  predicate IsAnnouncement(ev: Event, known: map<nat, Handle>, current: map<nat, Handle>)
  {
    var inode := ev.handle.inode;
    match ev
    case Added(h) => inode in current && inode !in known && h == current[inode]
    case Removed(h) => inode in known && inode !in current && h == known[inode]
  }

  ghost predicate Announces(events: seq<Event>, known: map<nat, Handle>, current: map<nat, Handle>)
  {
    && (forall ev :: ev in events ==> IsAnnouncement(ev, known, current))
    && (forall i :: i in current && i !in known ==> Added(current[i]) in events)
    && (forall i :: i in known && i !in current ==> Removed(known[i]) in events)
  }

  /** Announcements that lead from the known to the present inodes are all there are to make. */
  lemma AnnouncesAll(events: seq<Event>, known: map<nat, Handle>, current: map<nat, Handle>)
    requires forall ev :: ev in events ==> IsAnnouncement(ev, known, current)
    requires Replay(known.Keys, events) == current.Keys
    ensures Announces(events, known, current)
  {
    forall i | i in current && i !in known
      ensures Added(current[i]) in events
    {
      ReplayFinds(known.Keys, events, i);
    }
    forall i | i in known && i !in current
      ensures Removed(known[i]) in events
    {
      ReplayFinds(known.Keys, events, i);
    }
  }

  /** The events of one inode, in order. */
  function Of(events: seq<Event>, inode: nat): seq<Event>
  {
    if events == [] then []
    else
      var last := events[|events| - 1];
      Of(events[..|events| - 1], inode) + (if last.handle.inode == inode then [last] else [])
  }

  /** In an orderly stream from nothing the events of an inode alternate, beginning with an addition. */
  lemma {:induction false} OrderlyAlternates(events: seq<Event>, inode: nat)
    requires Orderly({}, events)
    ensures forall j :: 0 <= j < |Of(events, inode)| ==> (Of(events, inode)[j].Added? <==> j % 2 == 0)
    ensures inode in Replay({}, events) <==> |Of(events, inode)| % 2 == 1
  {
    if events != [] {
      OrderlyAlternates(events[..|events| - 1], inode);
    }
  }
}

/** Enumerating namespaces and one tick of the watcher, as sequential code. */
module NetnsWatcher {
  import opened Wrappers
  import opened NetnsEvents

  /** An entry of /proc, with the inode its ns/net has, if that can still be read. */
  datatype ProcEntry = ProcEntry(name: string, isDir: bool, inode: Option<nat>)

  datatype NamedEntry = NamedEntry(name: string, inode: Option<nat>)

  predicate IsPid(p: ProcEntry)
  {
    p.isDir && p.name != "" && '0' <= p.name[0] <= '9'
  }

  predicate Observed(p: ProcEntry)
  {
    IsPid(p) && p.inode.Some?
  }

  function ProcHandle(p: ProcEntry): Handle
    requires p.inode.Some?
  {
    Handle(p.inode.value, "/proc/" + p.name + "/ns/net", "pid" + p.name)
  }

  function NamedHandle(n: NamedEntry): Handle
    requires n.inode.Some?
  {
    Handle(n.inode.value, "/var/run/netns/" + n.name, n.name)
  }

  /** The first process of a namespace names it. */
  function SeenInProc(procs: seq<ProcEntry>): map<nat, Handle>
  {
    if procs == [] then map[]
    else
      var before, p := SeenInProc(procs[..|procs| - 1]), procs[|procs| - 1];
      if Observed(p) && p.inode.value !in before then before[p.inode.value := ProcHandle(p)] else before
  }

  /** A named entry takes precedence, and a later one over an earlier one. */
  function SeenNamed(seen: map<nat, Handle>, named: seq<NamedEntry>): map<nat, Handle>
  {
    if named == [] then seen
    else
      var before, n := SeenNamed(seen, named[..|named| - 1]), named[|named| - 1];
      if n.inode.Some? then before[n.inode.value := NamedHandle(n)] else before
  }

  /** A directory of /proc named by a digit and more, whose namespace can be read, and is this one. */
  predicate Shows(p: ProcEntry, inode: nat)
  {
    p.isDir && p.name != "" && p.name[0] in "0123456789" && p.inode == Some(inode)
  }

  lemma ShowsObserved(p: ProcEntry, inode: nat)
    ensures Shows(p, inode) <==> Observed(p) && p.inode.value == inode
  {
    if IsPid(p) {
      var c := p.name[0];
      assert c == '0' || c == '1' || c == '2' || c == '3' || c == '4'
          || c == '5' || c == '6' || c == '7' || c == '8' || c == '9';
      assert c in "0123456789";
    }
  }

  /** Each inode that some process shows is seen once, under the first process that shows it. */
  lemma {:induction false} FirstProcessNames(procs: seq<ProcEntry>, inode: nat)
    ensures var seen := SeenInProc(procs);
            if inode in seen then
              exists i :: 0 <= i < |procs| && Shows(procs[i], inode)
                          && seen[inode] == Handle(inode, "/proc/" + procs[i].name + "/ns/net", "pid" + procs[i].name)
                          && forall j :: 0 <= j < i ==> !Shows(procs[j], inode)
            else forall i :: 0 <= i < |procs| ==> !Shows(procs[i], inode)
  {
    if procs != [] {
      var n := |procs| - 1;
      var front, p := procs[..n], procs[n];
      FirstProcessNames(front, inode);
      ShowsObserved(p, inode);
      assert forall j :: 0 <= j < n ==> procs[j] == front[j];
      if inode in SeenInProc(front) {
        var i :| 0 <= i < n && Shows(front[i], inode)
                 && SeenInProc(front)[inode]
                    == Handle(inode, "/proc/" + front[i].name + "/ns/net", "pid" + front[i].name)
                 && forall j :: 0 <= j < i ==> !Shows(front[j], inode);
        assert procs[i] == front[i];
      }
    }
  }

  /** Each inode that has a name gets the last of its names; the others are left as they were. */
  lemma {:induction false} LastNameWins(seen: map<nat, Handle>, named: seq<NamedEntry>, inode: nat)
    ensures var all := SeenNamed(seen, named);
            if exists i :: 0 <= i < |named| && named[i].inode == Some(inode) then
              exists i :: 0 <= i < |named| && named[i].inode == Some(inode)
                          && (forall j :: i < j < |named| ==> named[j].inode != Some(inode))
                          && inode in all
                          && all[inode] == Handle(inode, "/var/run/netns/" + named[i].name, named[i].name)
            else (inode in all <==> inode in seen) && (inode in all ==> all[inode] == seen[inode])
  {
    if named != [] {
      var n := |named| - 1;
      var front := named[..n];
      assert forall j :: 0 <= j < n ==> named[j] == front[j];
      LastNameWins(seen, front, inode);
    }
  }

  /** What the two loops are for: one handle per observed inode, a named one where there is a name. */
  lemma NamedTakePrecedence(procs: seq<ProcEntry>, named: seq<NamedEntry>, inode: nat)
    ensures var all := SeenNamed(SeenInProc(procs), named);
            && (inode in all <==> || (exists p :: p in procs && Shows(p, inode))
                                  || (exists n :: n in named && n.inode == Some(inode)))
            && (inode in all ==> all[inode].inode == inode)
            && (inode in all && (exists n :: n in named && n.inode == Some(inode)) ==>
                  exists n :: n in named && n.inode == Some(inode) && all[inode].name == n.name)
            && (inode in all && (forall n :: n in named ==> n.inode != Some(inode)) ==>
                  exists p :: p in procs && Shows(p, inode) && all[inode].name == "pid" + p.name)
  {
    FirstProcessNames(procs, inode);
    LastNameWins(SeenInProc(procs), named, inode);
  }

  /** procs is None when /proc cannot be read; named is None when there is no directory of names. */
  method Enumerate(procs: Option<seq<ProcEntry>>,
          named: Option<seq<NamedEntry>>) returns (seen: Option<map<nat, Handle>>)
    ensures seen.None? <==> procs.None?
    ensures procs.Some? ==>
      seen.value == SeenNamed(SeenInProc(procs.value), if named.Some? then named.value else [])
  {
    if procs.None? {
      return None;
    }
    var found: map<nat, Handle> := map[];
    for i := 0 to |procs.value|
      invariant found == SeenInProc(procs.value[..i])
    {
      var p := procs.value[i];
      assert procs.value[..i + 1][..i] == procs.value[..i];
      if IsPid(p) && p.inode.Some? && p.inode.value !in found {
        found := found[p.inode.value := ProcHandle(p)];
      }
    }
    assert procs.value[..|procs.value|] == procs.value;
    if named.Some? {
      ghost var before := found;
      for i := 0 to |named.value|
        invariant found == SeenNamed(before, named.value[..i])
      {
        var n := named.value[i];
        assert named.value[..i + 1][..i] == named.value[..i];
        if n.inode.Some? {
          found := found[n.inode.value := NamedHandle(n)];
        }
      }
      assert named.value[..|named.value|] == named.value;
    }
    return Some(found);
  }

  /** What the first loop has gone through. */
  function Visited(current: map<nat, Handle>, todo: set<nat>): map<nat, Handle>
  {
    map i | i in current && i !in todo :: current[i]
  }

  lemma VisitedNext(current: map<nat, Handle>, todo: set<nat>, inode: nat, known: map<nat, Handle>)
    requires inode in todo && inode in current
    ensures Visited(current, todo - {inode}) + known
         == if inode in known then Visited(current, todo) + known
            else (Visited(current, todo) + known)[inode := current[inode]]
  {
  }

  /** The first loop announces additions only. */
  ghost predicate AnnouncesNew(events: seq<Event>, known0: map<nat, Handle>, current: map<nat, Handle>)
  {
    forall ev :: ev in events ==> ev.Added? && IsAnnouncement(ev, known0, current)
  }

  ghost predicate Underway(known0: map<nat, Handle>, current: map<nat, Handle>, todo: set<nat>, known: map<nat,
          Handle>, events: seq<Event>)
  {
    && known == Visited(current, todo) + known0
    && AnnouncesNew(events, known0, current)
    && known.Keys == Replay(known0.Keys, events) && Orderly(known0.Keys, events)
  }

  lemma UnderwayNext(known0: map<nat, Handle>, current: map<nat, Handle>, todo: set<nat>, known: map<nat, Handle>,
                   events: seq<Event>, inode: nat)
    requires Underway(known0, current, todo, known, events)
    requires inode in todo && inode in current && current[inode].inode == inode
    ensures inode in known ==> Underway(known0, current, todo - {inode}, known, events)
    ensures inode !in known ==>
      Underway(known0, current, todo - {inode}, known[inode := current[inode]], events + [Added(current[inode])])
  {
    VisitedNext(current, todo, inode, known0);
    ReplayNext(known0.Keys, events, Added(current[inode]));
  }

  ghost predicate Forgetting(known0: map<nat, Handle>, current: map<nat, Handle>, todo: set<nat>,
          known: map<nat, Handle>, events: seq<Event>)
  {
    && todo <= known0.Keys
    && known == known0 - ((known0.Keys - todo) - current.Keys)
    && (forall ev :: ev in events ==> ev.Removed? && IsAnnouncement(ev, known0, current))
    && known.Keys == Replay(known0.Keys, events) && Orderly(known0.Keys, events)
  }

  lemma ForgettingNext(known0: map<nat, Handle>, current: map<nat, Handle>, todo: set<nat>, known: map<nat, Handle>,
          events: seq<Event>, inode: nat)
    requires Forgetting(known0, current, todo, known, events) && inode in todo && known0[inode].inode == inode
    ensures inode in known && known[inode] == known0[inode]
    ensures inode in current ==> Forgetting(known0, current, todo - {inode}, known, events)
    ensures inode !in current ==>
      Forgetting(known0, current, todo - {inode}, known - {inode}, events + [Removed(known0[inode])])
  {
    ReplayNext(known0.Keys, events, Removed(known0[inode]));
    var gone := (known0.Keys - todo) - current.Keys;
    assert (known0.Keys - (todo - {inode})) - current.Keys == if inode in current then gone else gone + {inode};
  }

  lemma AllVisited(current: map<nat, Handle>)
    ensures Visited(current, {}) == current && Visited(current, current.Keys) == map[]
  {
  }

  class Watcher {
    var known: map<nat, Handle>

    constructor ()
      ensures known == map[]
    {
      known := map[];
    }

    /** The first loop of a tick (and the initial snapshot): every new namespace is announced. */
    method EmitAdded(current: map<nat, Handle>) returns (events: seq<Event>)
      requires forall i :: i in current ==> current[i].inode == i
      modifies this
      ensures known == current + old(known)
      ensures known.Keys == Replay(old(known).Keys, events) && Orderly(old(known).Keys, events)
      ensures AnnouncesNew(events, old(known), current)
    {
      events := [];
      var todo := current.Keys;
      AllVisited(current);
      while todo != {}
        invariant todo <= current.Keys
        invariant Underway(old(known), current, todo, known, events)
      {
        var inode :| inode in todo;
        UnderwayNext(old(known), current, todo, known, events, inode);
        if inode !in known {
          known := known[inode := current[inode]];
          events := events + [Added(current[inode])];
        }
        todo := todo - {inode};
      }
    }

    /** The second loop: every namespace that is gone is announced. */
    method EmitRemoved(current: map<nat, Handle>) returns (events: seq<Event>)
      requires current.Keys <= known.Keys && forall i :: i in known ==> known[i].inode == i
      modifies this
      ensures known == old(known) - (old(known).Keys - current.Keys)
      ensures known.Keys == Replay(old(known).Keys, events) && Orderly(old(known).Keys, events)
      ensures forall ev :: ev in events ==> ev.Removed? && IsAnnouncement(ev, old(known), current)
    {
      events := [];
      var todo := known.Keys;
      while todo != {}
        invariant Forgetting(old(known), current, todo, known, events)
      {
        var inode :| inode in todo;
        ForgettingNext(old(known), current, todo, known, events, inode);
        todo := todo - {inode};
        if inode !in current {
          events := events + [Removed(known[inode])];
          known := known - {inode};
        }
      }
    }

    /** One tick of Run. */
    method Tick(current: map<nat, Handle>) returns (events: seq<Event>)
      requires forall i :: i in current ==> current[i].inode == i
      requires forall i :: i in known ==> known[i].inode == i
      modifies this
      ensures known == KnownAfter(old(known), current)
      ensures known.Keys == current.Keys
      ensures forall i :: i in known ==> known[i] == if i in old(known) then old(known)[i] else current[i]
      ensures Announces(events, old(known), current) && Orderly(old(known).Keys, events)
    {
      ghost var known0 := known;
      var added := EmitAdded(current);
      var removed := EmitRemoved(current);
      events := added + removed;
      ReplayConcat(known0.Keys, added, removed);
      assert known.Keys == current.Keys;
      AnnouncesAll(events, known0, current);
    }
  }
}
