/** The watcher goroutine, the channel between them and the consumer goroutine, step by step. */
module NetnsRun {
  import opened Wrappers
  import opened NetnsEvents

  const QUEUE_CAPACITY: nat := 16

  /** Where the watcher is. current is the enumeration it is working through. */
  datatype Watch =
    | Starting
    | Adding(current: map<nat, Handle>)
    | Removing(current: map<nat, Handle>)
    | Sending(ev: Event, current: map<nat, Handle>, adding: bool)
    | Waiting(current: map<nat, Handle>)
    | Stopped(unsent: Option<Event>)

  /** History, in parallel: what was consumed, whether attaching was tried then, and whether it works then. */
  datatype State = State(
    self: nat,
    watch: Watch,
    known: map<nat, Handle>,
    queue: seq<Event>,
    attached: set<nat>,
    consumed: seq<Event>,
    called: seq<bool>,
    oks: seq<bool>)

  datatype Action =
    | Scan(current: map<nat, Handle>)
    | ScanFails
    | Add(inode: nat)
    | AddsDone
    | Remove(inode: nat)
    | RemovesDone
    | Send
    | Consume(attachOk: bool)
    | Cancel

  function Init(self: nat): State
  {
    State(self, Starting, map[], [], {self}, [], [], [])
  }

  /** A scan replaces nothing yet; a failed one is skipped, except the first, which ends the watcher. */
  function StepScan(s: State, current: map<nat, Handle>): State
  {
    if (s.watch.Starting? || s.watch.Waiting?) && (forall i :: i in current ==> current[i].inode == i)
    then s.(watch := Adding(current)) else s
  }

  function StepScanFails(s: State): State
  {
    if s.watch.Starting? then s.(watch := Stopped(None)) else s
  }

  function StepAdd(s: State, inode: nat): State
  {
    if s.watch.Adding? && inode in s.watch.current && inode !in s.known then
      var h := s.watch.current[inode];
      s.(known := s.known[inode := h], watch := Sending(Added(h), s.watch.current, true))
    else s
  }

  function StepRemove(s: State, inode: nat): State
  {
    if s.watch.Removing? && inode in s.known && inode !in s.watch.current then
      s.(known := s.known - {inode}, watch := Sending(Removed(s.known[inode]), s.watch.current, false))
    else s
  }

  /** The send blocks while the channel is full. */
  function StepSend(s: State): State
  {
    if s.watch.Sending? && |s.queue| < QUEUE_CAPACITY then
      s.(queue := s.queue + [s.watch.ev],
         watch := if s.watch.adding then Adding(s.watch.current) else Removing(s.watch.current))
    else s
  }

  /** The consumer tries to attach to an added namespace that it is not attached to. */
  predicate Calls(attached: set<nat>, ev: Event)
  {
    ev.Added? && ev.handle.inode !in attached
  }

  /** The consumer's body for one event: it forgets removed inodes and skips attached ones. */
  function AttachedAfter(attached: set<nat>, ev: Event, attachOk: bool): set<nat>
  {
    if ev.Removed? then attached - {ev.handle.inode}
    else if ev.handle.inode in attached then attached
    else if attachOk then attached + {ev.handle.inode}
    else attached
  }

  function StepConsume(s: State, attachOk: bool): State
  {
    if s.queue == [] then s
    else
      var ev := s.queue[0];
      s.(queue := s.queue[1..], attached := AttachedAfter(s.attached, ev, attachOk),
         consumed := s.consumed + [ev], called := s.called + [Calls(s.attached, ev)], oks := s.oks + [attachOk])
  }

  function Step(s: State, a: Action): State
  {
    match a
    case Scan(current) => StepScan(s, current)
    case ScanFails => StepScanFails(s)
    case Add(inode) => StepAdd(s, inode)
    case AddsDone =>
      if s.watch.Adding? && s.watch.current.Keys <= s.known.Keys then s.(watch := Removing(s.watch.current)) else s
    case Remove(inode) => StepRemove(s, inode)
    case RemovesDone =>
      if s.watch.Removing? && s.known.Keys <= s.watch.current.Keys then s.(watch := Waiting(s.watch.current)) else s
    case Send => StepSend(s)
    case Consume(attachOk) => StepConsume(s, attachOk)
    case Cancel =>
      if s.watch.Stopped? then s
      else s.(watch := Stopped(if s.watch.Sending? then Some(s.watch.ev) else None))
  }

  function After(self: nat, actions: seq<Action>): State
  {
    if actions == [] then Init(self) else Step(After(self, actions[..|actions| - 1]), actions[|actions| - 1])
  }

  /** The consumer as the loop body it is. */
  class Consumer {
    var attached: set<nat>

    constructor (self: nat)
      ensures attached == {self}
    {
      attached := {self};
    }

    /** called says whether the attach was tried; attachOk is what it returns then. */
    method OnEvent(ev: Event, attachOk: bool) returns (called: bool)
      modifies this
      ensures called == Calls(old(attached), ev) && attached == AttachedAfter(old(attached), ev, attachOk)
      ensures called <==> ev.Added? && ev.handle.inode !in old(attached)
      ensures called ==> (ev.handle.inode in attached <==> attachOk)
      ensures !called ==> (ev.handle.inode in attached <==> ev.Added?)
      ensures forall inode :: inode != ev.handle.inode ==> (inode in attached <==> inode in old(attached))
    {
      if !ev.Added? {
        attached := attached - {ev.handle.inode};
        return false;
      }
      if ev.handle.inode in attached {
        return false;
      }
      called := true;
      if !attachOk {
        return;
      }
      attached := attached + {ev.handle.inode};
    }
  }

  // ----- the watcher's stream

  function InFlight(w: Watch): seq<Event>
  {
    if w.Sending? then [w.ev] else if w.Stopped? && w.unsent.Some? then [w.unsent.value] else []
  }

  /** Everything the watcher has decided to announce, in order. */
  function Stream(s: State): seq<Event>
  {
    s.consumed + s.queue + InFlight(s.watch)
  }

  function CurrentOf(w: Watch): set<nat>
  {
    if w.Starting? || w.Stopped? then {} else w.current.Keys
  }

  /** The stream, replayed, gives the known inodes, and adds and removes in turns. */
  ghost predicate Announced(known: set<nat>, stream: seq<Event>)
  {
    Replay({}, stream) == known && Orderly({}, stream)
  }

  ghost predicate Shape(s: State)
  {
    && |s.queue| <= QUEUE_CAPACITY
    && (forall i :: i in s.known ==> s.known[i].inode == i)
    && (!s.watch.Starting? && !s.watch.Stopped? ==> forall i :: i in s.watch.current ==> s.watch.current[i].inode == i)
    && (s.watch.Starting? ==> s.known == map[])
    && (s.watch.Removing? || (s.watch.Sending? && !s.watch.adding) ==> CurrentOf(s.watch) <= s.known.Keys)
    && (s.watch.Waiting? ==> CurrentOf(s.watch) == s.known.Keys)
  }

  ghost predicate Inv(s: State)
  {
    Announced(s.known.Keys, Stream(s)) && Shape(s)
  }

  lemma ShapeStep(s: State, a: Action)
    requires Shape(s)
    ensures Shape(Step(s, a))
  {
  }

  /** The watcher starts to announce an event and has changed its mind about one inode, or neither. */
  ghost predicate Grows(s: State, s': State)
  {
    if s'.watch.Sending? && !s.watch.Sending? then
      var ev, inode := s'.watch.ev, s'.watch.ev.handle.inode;
      && Stream(s') == Stream(s) + [ev]
      && (ev.Added? ==> inode !in s.known && s'.known.Keys == s.known.Keys + {inode})
      && (ev.Removed? ==> inode in s.known && s'.known.Keys == s.known.Keys - {inode})
    else
      Stream(s') == Stream(s) && s'.known == s.known
  }

  lemma SendGrows(s: State)
    ensures Grows(s, StepSend(s))
  {
    assert s.queue + [] == s.queue;
    var s' := StepSend(s);
    if s'.watch != s.watch {
      assert Stream(s') == s.consumed + (s.queue + [s.watch.ev]) + [];
    }
  }

  lemma ConsumeGrows(s: State, attachOk: bool)
    ensures Grows(s, StepConsume(s, attachOk))
  {
    if s.queue != [] {
      assert s.queue == [s.queue[0]] + s.queue[1..];
      assert Stream(StepConsume(s, attachOk)) == s.consumed + [s.queue[0]] + s.queue[1..] + InFlight(s.watch);
    }
  }

  lemma AnnounceGrows(s: State, a: Action)
    requires Shape(s) && (a.Add? || a.Remove?)
    ensures Grows(s, Step(s, a))
  {
  }

  lemma StreamStep(s: State, a: Action)
    requires Shape(s)
    ensures Grows(s, Step(s, a))
  {
    match a
    case Send => SendGrows(s);
    case Consume(attachOk) => ConsumeGrows(s, attachOk);
    case Add(_) => AnnounceGrows(s, a);
    case Remove(_) => AnnounceGrows(s, a);
    case _ =>
  }

  lemma InvStep(s: State, a: Action)
    requires Inv(s)
    ensures Inv(Step(s, a))
  {
    ShapeStep(s, a);
    StreamStep(s, a);
    var s' := Step(s, a);
    if s'.watch.Sending? && !s.watch.Sending? {
      ReplayNext({}, Stream(s), s'.watch.ev);
    }
  }

  lemma {:induction false} InvRun(self: nat, actions: seq<Action>)
    ensures Inv(After(self, actions))
  {
    if actions != [] {
      InvRun(self, actions[..|actions| - 1]);
      InvStep(After(self, actions[..|actions| - 1]), actions[|actions| - 1]);
    }
  }

  /**
   At every step, and whatever the consumer does meanwhile: replaying what was consumed, what
   is queued and what is being sent gives exactly the inodes the watcher knows; the queue keeps
   its bound; after a completed tick the known inodes are the enumerated ones; and the
   events of each inode alternate, an addition first.
   */
  lemma {:induction false} StreamReplaysToKnown(self: nat, actions: seq<Action>, inode: nat)
    ensures var s := After(self, actions);
            && Replay({}, Stream(s)) == s.known.Keys
            && |s.queue| <= 16
            && (s.watch.Waiting? ==> s.known.Keys == s.watch.current.Keys)
            && (forall j :: 0 <= j < |Of(Stream(s), inode)| ==> (Of(Stream(s), inode)[j].Added? <==> j % 2 == 0))
  {
    InvRun(self, actions);
    OrderlyAlternates(Stream(After(self, actions)), inode);
  }

  // ----- when the watcher ends

  /** An enumeration that succeeds; each handle is found under its own inode. */
  predicate Enumerates(a: Action)
  {
    a.Scan? && forall i :: i in a.current ==> a.current[i].inode == i
  }

  ghost predicate Scanned(actions: seq<Action>)
  {
    exists i :: 0 <= i < |actions| && Enumerates(actions[i])
  }

  /** Action i cancels, or is a failure to enumerate before any enumeration succeeded. */
  ghost predicate EndsAt(actions: seq<Action>, i: nat)
    requires i < |actions|
  {
    actions[i].Cancel? || (actions[i].ScanFails? && !Scanned(actions[..i]))
  }

  ghost predicate Ended(actions: seq<Action>)
  {
    exists i :: 0 <= i < |actions| && EndsAt(actions, i)
  }

  lemma EndedNext(actions: seq<Action>, n: nat)
    requires |actions| == n + 1
    ensures Ended(actions) <==> Ended(actions[..n]) || EndsAt(actions, n)
    ensures Scanned(actions) <==> Scanned(actions[..n]) || Enumerates(actions[n])
  {
    forall i | 0 <= i < n
      ensures EndsAt(actions[..n], i) <==> EndsAt(actions, i)
    {
      assert actions[..n][..i] == actions[..i];
    }
    assert forall i :: 0 <= i < n ==> actions[..n][i] == actions[i];
  }

  lemma WatchNext(s: State, a: Action)
    ensures Step(s, a).watch.Stopped? <==> s.watch.Stopped? || a.Cancel? || (a.ScanFails? && s.watch.Starting?)
    ensures Step(s, a).watch.Starting? <==> s.watch.Starting? && !a.Cancel? && !a.ScanFails? && !Enumerates(a)
  {
  }

  /** A failure to enumerate ends the watcher only at the start; later ones are skipped until it is cancelled. */
  lemma {:induction false} EndsExactly(self: nat, actions: seq<Action>)
    ensures After(self, actions).watch.Stopped? <==> Ended(actions)
    ensures After(self, actions).watch.Starting? <==> !Ended(actions) && !Scanned(actions)
  {
    if actions != [] {
      var n := |actions| - 1;
      EndsExactly(self, actions[..n]);
      EndedNext(actions, n);
      WatchNext(After(self, actions[..n]), actions[n]);
    }
  }

  // ----- the consumer

  /**
   What the events and the results of attaching say: the inode is the own one, or was added when
   attaching worked, and has not been removed since.
   */
  ghost predicate Holds(self: nat, events: seq<Event>, oks: seq<bool>, inode: nat)
    requires |events| == |oks|
  {
    || (inode == self && !RemovedSince(events, 0, inode))
    || exists j :: 0 <= j < |events| && AddedAt(events, j, inode) && oks[j] && !RemovedSince(events, j, inode)
  }

  lemma HoldsNext(self: nat, events: seq<Event>, oks: seq<bool>, ev: Event, ok: bool, inode: nat)
    requires |events| == |oks|
    ensures Holds(self, events + [ev], oks + [ok], inode)
       <==> if ev.handle.inode != inode then Holds(self, events, oks, inode)
            else ev.Added? && (ok || Holds(self, events, oks, inode))
  {
    var all, n := events + [ev], |events|;
    forall j | 0 <= j <= n
      ensures RemovedSince(all, j, inode) <==>
        RemovedSince(events, j, inode) || (ev.Removed? && ev.handle.inode == inode)
    {
      RemovedNext(events, j, ev, inode);
    }
    assert forall j :: 0 <= j < n ==> (AddedAt(all, j, inode) <==> AddedAt(events, j, inode));
    assert AddedAt(all, n, inode) <==> ev.Added? && ev.handle.inode == inode;
    assert forall j :: 0 <= j < n ==> (oks + [ok])[j] == oks[j];
    assert (oks + [ok])[n] == ok;
    assert !RemovedSince(events, n, inode);
  }

  /** Attaching is tried at every addition of an inode that is not attached to then, and at no other event. */
  ghost predicate CalledWhenNeeded(self: nat, events: seq<Event>, called: seq<bool>, oks: seq<bool>)
    requires |events| == |called| == |oks|
  {
    forall j :: 0 <= j < |events| ==>
      (called[j] <==> events[j].Added? && !Holds(self, events[..j], oks[..j], events[j].handle.inode))
  }

  ghost predicate ConsumerInv(s: State)
  {
    && |s.consumed| == |s.called| == |s.oks|
    && (forall inode :: inode in s.attached <==> Holds(s.self, s.consumed, s.oks, inode))
    && CalledWhenNeeded(s.self, s.consumed, s.called, s.oks)
  }

  lemma ConsumeStep(s: State, attachOk: bool)
    requires ConsumerInv(s) && s.queue != []
    ensures ConsumerInv(StepConsume(s, attachOk))
  {
    var ev, s' := s.queue[0], StepConsume(s, attachOk);
    forall inode
      ensures inode in s'.attached <==> Holds(s.self, s'.consumed, s'.oks, inode)
    {
      HoldsNext(s.self, s.consumed, s.oks, ev, attachOk, inode);
    }
    forall j | 0 <= j < |s'.consumed|
      ensures s'.consumed[..j] == if j < |s.consumed| then s.consumed[..j] else s.consumed
      ensures s'.oks[..j] == if j < |s.oks| then s.oks[..j] else s.oks
    {
    }
  }

  lemma OnlyConsumeConsumes(s: State, a: Action)
    requires !a.Consume? || s.queue == []
    ensures var s' := Step(s, a);
            s'.self == s.self && s'.attached == s.attached
            && s'.consumed == s.consumed && s'.called == s.called && s'.oks == s.oks
  {
  }

  lemma {:induction false} ConsumerRun(self: nat, actions: seq<Action>)
    ensures ConsumerInv(After(self, actions)) && After(self, actions).self == self
  {
    if actions != [] {
      var s, a := After(self, actions[..|actions| - 1]), actions[|actions| - 1];
      ConsumerRun(self, actions[..|actions| - 1]);
      if a.Consume? && s.queue != [] {
        ConsumeStep(s, a.attachOk);
      } else {
        OnlyConsumeConsumes(s, a);
      }
    }
  }

  /**
   In every reachable state the consumer remembers exactly the inodes that were added when
   attaching worked, and its own, and that were not removed since; and it tries to attach at
   exactly the additions of inodes that it does not remember.
   */
  lemma AttachedExactly(self: nat, actions: seq<Action>, inode: nat)
    ensures var s := After(self, actions);
            && |s.consumed| == |s.called| == |s.oks|
            && (inode in s.attached <==> Holds(self, s.consumed, s.oks, inode))
            && CalledWhenNeeded(self, s.consumed, s.called, s.oks)
  {
    ConsumerRun(self, actions);
  }

  /** What holds before some events and is not removed by them holds after them. */
  lemma HoldsOn(self: nat, events: seq<Event>, oks: seq<bool>, j: nat, inode: nat)
    requires j <= |events| == |oks|
    requires Holds(self, events[..j], oks[..j], inode) && !RemovedSince(events, j, inode)
    ensures Holds(self, events, oks, inode)
  {
    forall i | 0 <= i <= j && !RemovedSince(events[..j], i, inode)
      ensures !RemovedSince(events, i, inode)
    {
      RemovedLater(events, i, j, inode);
    }
    if !(inode == self && !RemovedSince(events[..j], 0, inode)) {
      var i :| 0 <= i < j && AddedAt(events[..j], i, inode) && oks[..j][i] && !RemovedSince(events[..j], i, inode);
      assert AddedAt(events, i, inode);
    }
  }

  /**
   After a successful attach to an inode none is tried again before the inode was reported
   removed, and none is tried to the own one before that.
   */
  lemma AttachedOnce(self: nat, actions: seq<Action>, i: nat, j: nat)
    ensures var s := After(self, actions);
            && |s.consumed| == |s.called| == |s.oks|
            && (i < j < |s.consumed| && s.called[i] && s.oks[i] && s.called[j]
                && s.consumed[i].handle.inode == s.consumed[j].handle.inode ==>
                  RemovedSince(s.consumed[..j], i, s.consumed[j].handle.inode))
            && (j < |s.consumed| && s.called[j] && s.consumed[j].handle.inode == self ==>
                  RemovedSince(s.consumed[..j], 0, self))
  {
    ConsumerRun(self, actions);
    var s := After(self, actions);
    if i < j < |s.consumed| {
      assert AddedAt(s.consumed, i, s.consumed[i].handle.inode) <==>
             AddedAt(s.consumed[..j], i, s.consumed[i].handle.inode);
    }
  }

  /** Nothing is remembered but present inodes and the own one; all of them, if no attach that was tried failed. */
  lemma AttachedToThePresent(self: nat, actions: seq<Action>, inode: nat)
    ensures var s := After(self, actions);
            && |s.called| == |s.oks|
            && s.attached <= {self} + Replay({}, s.consumed)
            && ((forall j :: 0 <= j < |s.called| && s.called[j] ==> s.oks[j]) && inode in Replay({}, s.consumed) ==>
                  inode in s.attached)
  {
    ConsumerRun(self, actions);
    var s := After(self, actions);
    forall i | i in s.attached && i != self
      ensures i in Replay({}, s.consumed)
    {
      PresentExactly(s.consumed, i);
    }
    if (forall j :: 0 <= j < |s.called| && s.called[j] ==> s.oks[j]) && inode in Replay({}, s.consumed) {
      PresentExactly(s.consumed, inode);
      var j :| 0 <= j < |s.consumed| && AddedAt(s.consumed, j, inode) && !RemovedSince(s.consumed, j, inode);
      if !s.called[j] {
        HoldsOn(self, s.consumed, s.oks, j, inode);
      }
    }
  }
}
