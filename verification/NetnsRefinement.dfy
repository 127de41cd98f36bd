/** The watcher's code and the watcher's steps in the runs do the same. */
module NetnsRefinement {
  import opened NetnsEvents
  import opened NetnsWatcher
  import opened NetnsRun

  /** What may happen during a tick: the watcher's own steps, and the consumer's. */
  predicate WithinTick(actions: seq<Action>)
  {
    forall a :: a in actions ==> !a.Scan? && !a.ScanFails? && !a.Cancel?
  }

  function Continue(s: State, actions: seq<Action>): State
  {
    if actions == [] then s else Step(Continue(s, actions[..|actions| - 1]), actions[|actions| - 1])
  }

  /** The enumeration that a tick works through. */
  predicate WorksOn(w: Watch, current: map<nat, Handle>)
  {
    match w
    case Adding(c) => c == current
    case Removing(c) => c == current
    case Sending(_, c, _) => c == current
    case Waiting(c) => c == current
    case _ => false
  }

  predicate InFirstLoop(w: Watch)
  {
    w.Adding? || (w.Sending? && w.adding)
  }

  /** What is known during a tick are old handles and new ones; the first loop forgets none. */
  ghost predicate Midway(known0: map<nat, Handle>, current: map<nat, Handle>, s: State)
  {
    && WorksOn(s.watch, current)
    && (forall i :: i in s.known ==>
          if i in known0 then s.known[i] == known0[i] else i in current && s.known[i] == current[i])
    && (InFirstLoop(s.watch) ==> known0.Keys <= s.known.Keys)
  }

  lemma MidwayStep(known0: map<nat, Handle>, current: map<nat, Handle>, s: State, a: Action)
    requires Shape(s) && Midway(known0, current, s) && WithinTick([a])
    ensures Midway(known0, current, Step(s, a))
  {
    assert a in [a];
  }

  /** What the watcher decides to announce is an announcement of the tick. */
  lemma AnnouncementStep(known0: map<nat, Handle>, current: map<nat, Handle>, s: State, a: Action)
    requires Shape(s) && Midway(known0, current, s) && WithinTick([a])
    requires Step(s, a).watch.Sending? && !s.watch.Sending?
    ensures IsAnnouncement(Step(s, a).watch.ev, known0, current)
  {
    assert a in [a];
  }

  /** How the stream has grown. */
  ghost predicate Grown(s: State, s': State, events: seq<Event>)
  {
    Stream(s') == Stream(s) + events
  }

  lemma {:induction false} MidwayRun(s: State, current: map<nat, Handle>, actions: seq<Action>)
    returns (events: seq<Event>)
    requires Inv(s) && s.watch == Adding(current) && WithinTick(actions)
    ensures Inv(Continue(s, actions)) && Midway(s.known, current, Continue(s, actions))
    ensures Grown(s, Continue(s, actions), events)
    ensures forall ev :: ev in events ==> IsAnnouncement(ev, s.known, current)
  {
    if actions == [] {
      events := [];
      assert Stream(s) + events == Stream(s);
    } else {
      var front, a := actions[..|actions| - 1], actions[|actions| - 1];
      assert a in actions;
      var before := MidwayRun(s, current, front);
      var t := Continue(s, front);
      InvStep(t, a);
      StreamStep(t, a);
      MidwayStep(s.known, current, t, a);
      if Step(t, a).watch.Sending? && !t.watch.Sending? {
        AnnouncementStep(s.known, current, t, a);
        events := before + [Step(t, a).watch.ev];
        assert Stream(s) + events == Stream(s) + before + [Step(t, a).watch.ev];
      } else {
        events := before;
      }
    }
  }

  /** A tick of a run ends with the same known handles as Tick, and makes the same announcements. */
  lemma {:induction false} TickEnds(s: State, current: map<nat, Handle>, actions: seq<Action>)
    returns (events: seq<Event>)
    requires Inv(s) && s.watch == Adding(current) && WithinTick(actions)
    requires Continue(s, actions).watch.Waiting?
    ensures Continue(s, actions).known == KnownAfter(s.known, current)
    ensures Grown(s, Continue(s, actions), events)
    ensures Announces(events, s.known, current) && Orderly(s.known.Keys, events)
  {
    events := MidwayRun(s, current, actions);
    ReplayConcat({}, Stream(s), events);
    assert Continue(s, actions).known.Keys == current.Keys;
    AnnouncesAll(events, s.known, current);
  }

  /**
   Tick, called on a watcher that knows what a run's watcher knows when its tick begins, leaves
   it knowing what that one knows when its tick ends, and announces the same events, though
   perhaps in another order: in whatever order both go through their maps, and however the
   consumer empties the channel meanwhile.
   */
  method TickFollowsTheRun(w: Watcher, s: State, ghost actions: seq<Action>, current: map<nat, Handle>)
    returns (events: seq<Event>, ghost grown: seq<Event>)
    requires Inv(s) && s.watch == Adding(current) && WithinTick(actions) && Continue(s, actions).watch.Waiting?
    requires w.known == s.known
    modifies w
    ensures w.known == Continue(s, actions).known
    ensures Grown(s, Continue(s, actions), grown) && forall ev :: ev in events <==> ev in grown
  {
    grown := TickEnds(s, current, actions);
    events := w.Tick(current);
    SameAnnouncements(events, grown, s.known, current);
  }

  lemma SameAnnouncements(a: seq<Event>, b: seq<Event>, known: map<nat, Handle>, current: map<nat, Handle>)
    requires Announces(a, known, current) && Announces(b, known, current)
    ensures forall ev :: ev in a <==> ev in b
  {
    forall ev
      ensures ev in a <==> ev in b
    {
      if ev in a || ev in b {
        assert IsAnnouncement(ev, known, current);
      }
    }
  }

  // ----- the bounded channel does not stop a tick for good

  lemma {:induction false} ContinueConcat(s: State, a: seq<Action>, b: seq<Action>)
    ensures Continue(s, a + b) == Continue(Continue(s, a), b)
  {
    if b == [] {
      assert a + b == a;
    } else {
      ContinueConcat(s, a, b[..|b| - 1]);
      assert (a + b)[..|a + b| - 1] == a + b[..|b| - 1];
    }
  }

  lemma ContinueOne(s: State, a: Action)
    ensures Continue(s, [a]) == Step(s, a)
  {
    assert [a][..0] == [];
  }

  /** The state that actions within a tick lead to. */
  ghost predicate Leads(s: State, actions: seq<Action>, t: State)
  {
    WithinTick(actions) && Continue(s, actions) == t
  }

  lemma LeadsOn(s: State, a: seq<Action>, t: State, b: seq<Action>, u: State)
    requires Leads(s, a, t) && Leads(t, b, u)
    ensures Leads(s, a + b, u)
  {
    ContinueConcat(s, a, b);
  }

  lemma LeadsOne(s: State, a: Action)
    requires !a.Scan? && !a.ScanFails? && !a.Cancel?
    ensures Leads(s, [a], Step(s, a))
  {
    ContinueOne(s, a);
  }

  /** Once the consumer has taken an event from a full channel, the watcher can send. */
  lemma SendOne(s: State) returns (actions: seq<Action>, t: State)
    requires Shape(s) && s.watch.Sending?
    ensures Leads(s, actions, t) && Shape(t) && t.known == s.known
    ensures t.watch == if s.watch.adding then Adding(s.watch.current) else Removing(s.watch.current)
  {
    if |s.queue| < QUEUE_CAPACITY {
      actions, t := [Send], Step(s, Send);
      LeadsOne(s, Send);
    } else {
      var u := Step(s, Consume(true));
      ShapeStep(s, Consume(true));
      LeadsOne(s, Consume(true));
      LeadsOne(u, Send);
      actions, t := [Consume(true)] + [Send], Step(u, Send);
      LeadsOn(s, [Consume(true)], u, [Send], t);
      ShapeStep(u, Send);
    }
    ShapeStep(s, Send);
  }

  /** One addition or removal, with its event sent. */
  lemma ChangeOne(s: State, a: Action) returns (actions: seq<Action>, t: State)
    requires Shape(s) && (a.Add? || a.Remove?) && Step(s, a).watch.Sending? && !s.watch.Sending?
    ensures Leads(s, actions, t) && Shape(t) && t.watch == s.watch && t.known == Step(s, a).known
  {
    var u := Step(s, a);
    ShapeStep(s, a);
    LeadsOne(s, a);
    var send;
    send, t := SendOne(u);
    actions := [a] + send;
    LeadsOn(s, [a], u, send, t);
  }

  lemma {:induction false} AddRest(s: State) returns (actions: seq<Action>, t: State)
    requires Shape(s) && s.watch.Adding?
    ensures Leads(s, actions, t) && Shape(t) && t.watch == Removing(s.watch.current)
    decreases s.watch.current.Keys - s.known.Keys
  {
    if s.watch.current.Keys <= s.known.Keys {
      actions, t := [AddsDone], Step(s, AddsDone);
      LeadsOne(s, AddsDone);
      ShapeStep(s, AddsDone);
    } else {
      var inode :| inode in s.watch.current && inode !in s.known;
      var first, u := ChangeOne(s, Add(inode));
      var rest;
      assert u.watch.current.Keys - u.known.Keys == s.watch.current.Keys - s.known.Keys - {inode};
      rest, t := AddRest(u);
      actions := first + rest;
      LeadsOn(s, first, u, rest, t);
    }
  }

  lemma {:induction false} RemoveRest(s: State) returns (actions: seq<Action>, t: State)
    requires Shape(s) && s.watch.Removing?
    ensures Leads(s, actions, t) && t.watch.Waiting?
    decreases s.known.Keys - s.watch.current.Keys
  {
    if s.known.Keys <= s.watch.current.Keys {
      actions, t := [RemovesDone], Step(s, RemovesDone);
      LeadsOne(s, RemovesDone);
    } else {
      var inode :| inode in s.known && inode !in s.watch.current;
      var first, u := ChangeOne(s, Remove(inode));
      var rest;
      assert u.known.Keys - u.watch.current.Keys == s.known.Keys - s.watch.current.Keys - {inode};
      rest, t := RemoveRest(u);
      actions := first + rest;
      LeadsOn(s, first, u, rest, t);
    }
  }

  /** However full the channel is, a tick that has begun can be completed if the consumer goes on. */
  lemma TickCompletes(s: State, current: map<nat, Handle>) returns (actions: seq<Action>)
    requires Shape(s) && s.watch == Adding(current)
    ensures WithinTick(actions) && Continue(s, actions).watch.Waiting?
  {
    var add, u := AddRest(s);
    var remove, t := RemoveRest(u);
    actions := add + remove;
    LeadsOn(s, add, u, remove, t);
  }
}
