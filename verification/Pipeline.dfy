/** Reading and decoding a batch of raw events (internal/pipeline/source.go). */
module PipelineSource {
  import opened Wrappers
  import opened U64

  type Bytes = seq<bv8>

  datatype Event = Event(kind: string, timestamp: nat, pid: nat, comm: string, data: Bytes)

  type Decoder = Bytes -> Option<Event>

  datatype Stats = Stats(eventsRead: u64, eventsLost: u64, decodeErrors: u64)

  /** What a decoder makes of a stream: its successes, in order. */
  function Decoded(decode: Decoder, raws: seq<Bytes>): seq<Event>
  {
    if raws == [] then []
    else
      var last := decode(raws[|raws| - 1]);
      Decoded(decode, raws[..|raws| - 1]) + (if last.Some? then [last.value] else [])
  }

  lemma {:induction false} DecodedConcat(decode: Decoder, a: seq<Bytes>, b: seq<Bytes>)
    ensures Decoded(decode, a + b) == Decoded(decode, a) + Decoded(decode, b)
  {
    if b == [] {
      assert a + b == a;
    } else {
      DecodedConcat(decode, a, b[..|b| - 1]);
      assert (a + b)[..|a + b| - 1] == a + b[..|b| - 1];
    }
  }

  lemma {:induction false} DecodedNoLonger(decode: Decoder, raws: seq<Bytes>)
    ensures |Decoded(decode, raws)| <= |raws|
  {
    if raws != [] {
      DecodedNoLonger(decode, raws[..|raws| - 1]);
    }
  }

  /** The raw events that a decoder can decode, by their places. */
  function Good(decode: Decoder, raws: seq<Bytes>): set<nat>
  {
    set i: nat | i < |raws| && decode(raws[i]).Some?
  }

  lemma GoodNext(decode: Decoder, raws: seq<Bytes>)
    requires raws != []
    ensures var n := |raws| - 1;
            Good(decode, raws) == Good(decode, raws[..n]) + (if decode(raws[n]).Some? then {n} else {})
            && n !in Good(decode, raws[..n])
  {
    var n := |raws| - 1;
    assert forall i :: 0 <= i < n ==> raws[..n][i] == raws[i];
  }

  /** There is one event for each of them, at the place that the number of earlier ones gives it. */
  lemma {:induction false} DecodedExactly(decode: Decoder, raws: seq<Bytes>, i: nat)
    ensures |Decoded(decode, raws)| == |Good(decode, raws)|
    ensures i in Good(decode, raws) ==>
      var place := |Good(decode, raws[..i])|;
      place < |Decoded(decode, raws)| && Decoded(decode, raws)[place] == decode(raws[i]).value
  {
    if raws != [] {
      var n := |raws| - 1;
      DecodedExactly(decode, raws[..n], i);
      GoodNext(decode, raws);
      if i < n {
        assert raws[..n][..i] == raws[..i];
      }
    }
  }

  /** The counters after a batch. */
  function StatsAfter(stats: Stats, decode: Decoder, raws: seq<Bytes>, lost: u64): Stats
  {
    DecodedNoLonger(decode, raws);
    var good := |Decoded(decode, raws)|;
    Stats(WrapAdd(stats.eventsRead, good), lost, WrapAdd(stats.decodeErrors, |raws| - good))
  }

  /** The counters have counted the decoded raw events and the others, as far as 64 bits can. */
  ghost predicate Accounts(stats: Stats, decode: Decoder, raws: seq<Bytes>)
  {
    DecodedNoLonger(decode, raws);
    && stats.eventsRead == |Decoded(decode, raws)| % 0x1_0000_0000_0000_0000
    && stats.decodeErrors == (|raws| - |Decoded(decode, raws)|) % 0x1_0000_0000_0000_0000
  }

  lemma WrapTwice(a: nat, b: nat, x: nat, y: nat, total: nat)
    requires (a + b) % SIZE == total % SIZE
    ensures ((a + x) % SIZE + (b + y) % SIZE) % SIZE == (total + x + y) % SIZE
  {
    var q, p, s, t := (a + x) / SIZE, (b + y) / SIZE, (a + b) / SIZE, total / SIZE;
    assert (a + x) % SIZE + (b + y) % SIZE == total + x + y + SIZE * (s - t - q - p);
    ModShift((a + x) % SIZE + (b + y) % SIZE, total + x + y, s - t - q - p);
  }

  lemma ModShift(u: nat, v: nat, k: int)
    requires u == v + SIZE * k
    ensures u % SIZE == v % SIZE
  {
    assert u / SIZE == v / SIZE + k;
  }

  lemma EveryRawEventIsCounted(stats: Stats, decode: Decoder, before: seq<Bytes>, raws: seq<Bytes>, lost: u64)
    requires Accounts(stats, decode, before)
    ensures Accounts(StatsAfter(stats, decode, raws, lost), decode, before + raws)
  {
    DecodedNoLonger(decode, before);
    DecodedNoLonger(decode, raws);
    DecodedConcat(decode, before, raws);
    var good, all := |Decoded(decode, before)|, |before|;
    AddToWrapped(good, |Decoded(decode, raws)|);
    AddToWrapped(all - good, |raws| - |Decoded(decode, raws)|);
  }

  /** So together they have counted all raw events. */
  lemma CountersAddUp(stats: Stats, decode: Decoder, raws: seq<Bytes>)
    requires Accounts(stats, decode, raws)
    ensures (stats.eventsRead + stats.decodeErrors) % SIZE == |raws| % SIZE
  {
    DecodedNoLonger(decode, raws);
    var good := |Decoded(decode, raws)|;
    WrapTwice(0, 0, good, |raws| - good, 0);
  }

  class ReaderSource {
    const decode: Decoder
    var stats: Stats
    /** Every raw event read so far. */
    ghost var history: seq<Bytes>

    ghost predicate Valid()
      reads this
    {
      Accounts(stats, decode, history)
    }

    constructor (decode: Decoder)
      ensures Valid() && this.decode == decode && stats == Stats(0, 0, 0) && history == []
    {
      this.decode := decode;
      stats, history := Stats(0, 0, 0), [];
    }

    /** read is what the underlying reader returns, and lost its own count of lost events by then. */
    method Read(read: Option<seq<Bytes>>, lost: u64) returns (batch: Option<seq<Event>>)
      requires Valid()
      modifies this
      ensures Valid()
      ensures read.None? ==> batch.None? && unchanged(this)
      ensures read.Some? ==> batch == Some(Decoded(decode, read.value)) && history == old(history) + read.value
      ensures read.Some? ==> stats == StatsAfter(old(stats), decode, read.value, lost) && stats.eventsLost == lost
    {
      if read.None? {
        return None;
      }
      var raws := read.value;
      var events: seq<Event> := [];
      for i := 0 to |raws|
        invariant events == Decoded(decode, raws[..i]) && |events| <= i
        invariant stats == old(stats).(decodeErrors := WrapAdd(old(stats).decodeErrors, i - |events|))
        invariant history == old(history)
      {
        assert raws[..i + 1][..i] == raws[..i];
        var decoded := decode(raws[i]);
        if decoded.None? {
          AddToWrapped(old(stats).decodeErrors + (i - |events|), 1);
          stats := stats.(decodeErrors := WrapAdd(stats.decodeErrors, 1));
          continue;
        }
        events := events + [decoded.value];
      }
      assert raws[..|raws|] == raws;
      stats := stats.(eventsRead := WrapAdd(stats.eventsRead, |events|));
      stats := stats.(eventsLost := lost);
      EveryRawEventIsCounted(old(stats), decode, history, raws, lost);
      history := history + raws;
      return Some(events);
    }
  }
}

/** Sources read, enrich and fan out concurrently (internal/pipeline/pipeline.go). */
module PipelineRun {
  import opened Wrappers
  import opened U64
  import opened PipelineSource

  /** Where the goroutine of a source is. */
  datatype Pc =
    | Top
    | Reading
    | Enriching(batch: seq<Event>, i: nat)
    | Sending(batch: seq<Event>, sink: nat)
    | Stopped(failed: bool)

  /** History: raws, everything read; delivered, the batches that went to all sinks, as enriched. */
  datatype Source = Source(pc: Pc, stats: Stats, raws: seq<Bytes>, delivered: seq<Event>)

  /** One call of a sink's Send, whether or not it succeeds. */
  datatype Delivery = Delivery(source: nat, events: seq<Event>)

  /** logs has one entry per sink, errors is the error channel. */
  datatype State = State(sources: seq<Source>, logs: seq<seq<Delivery>>, errors: seq<nat>, cancelled: bool)

  datatype Action =
    | Cancel
    | Check(source: nat)
    | Read(source: nat, read: Option<seq<Bytes>>, lost: u64)
    | Enrich(source: nat, enriched: Event)
    | Send(source: nat)

  /** An event without what enrichment fills in. */
  function Bare(e: Event): Event
  {
    e.(comm := "")
  }

  function BareAll(events: seq<Event>): (r: seq<Event>)
  {
    seq(|events|, i requires 0 <= i < |events| => Bare(events[i]))
  }

  lemma BareConcat(a: seq<Event>, b: seq<Event>)
    ensures BareAll(a + b) == BareAll(a) + BareAll(b)
  {
  }

  function Init(decoders: seq<Decoder>, sinks: nat): State
  {
    State(seq(|decoders|, _ => Source(Top, Stats(0, 0, 0), [], [])), seq(sinks, _ => []), [], false)
  }

  /** One step of a source's goroutine, apart from what it does to logs and errors. */
  function Advance(decode: Decoder, src: Source, sinks: nat, cancelled: bool, a: Action): Source
  {
    match src.pc
    case Top =>
      if a.Check? then src.(pc := if cancelled then Stopped(false) else Reading) else src
    case Reading =>
      if !a.Read? then src
      else if a.read.None? then src.(pc := Stopped(!cancelled))
      else
        var batch := Decoded(decode, a.read.value);
        Source(
          if batch == [] then Top else Enriching(batch, 0),
          StatsAfter(src.stats, decode, a.read.value, a.lost),
          src.raws + a.read.value,
          src.delivered)
    case Enriching(batch, i) =>
      if i < |batch| then
        if a.Enrich? && Bare(a.enriched) == Bare(batch[i])
        then src.(pc := Enriching(batch[i := a.enriched], i + 1)) else src
      else if !a.Send? then src
      else src.(pc := Sending(batch, 0))
    case Sending(batch, sink) =>
      if !a.Send? then src
      else if sink < sinks then src.(pc := Sending(batch, sink + 1))
      else src.(pc := Top, delivered := src.delivered + batch)
    case Stopped(_) => src
  }

  /** The sink that a step sends to, if it sends. */
  function Target(src: Source, sinks: nat, a: Action): Option<nat>
  {
    if a.Send? && src.pc.Sending? && src.pc.sink < sinks then Some(src.pc.sink) else None
  }

  function Next(decoders: seq<Decoder>, s: State, a: Action): State
    requires |s.sources| == |decoders|
  {
    if a.Cancel? then s.(cancelled := true)
    else if a.source >= |s.sources| then s
    else
      var src, k := s.sources[a.source], a.source;
      var after := Advance(decoders[k], src, |s.logs|, s.cancelled, a);
      var to := Target(src, |s.logs|, a);
      State(
        s.sources[k := after],
        if to.Some? then s.logs[to.value := s.logs[to.value] + [Delivery(k, src.pc.batch)]] else s.logs,
        if after.pc == Stopped(true) && after.pc != src.pc then s.errors + [k] else s.errors,
        s.cancelled)
  }

  function Run(decoders: seq<Decoder>, sinks: nat, actions: seq<Action>): (s: State)
    ensures |s.sources| == |decoders| && |s.logs| == sinks
  {
    if actions == [] then Init(decoders, sinks)
    else Next(decoders, Run(decoders, sinks, actions[..|actions| - 1]), actions[|actions| - 1])
  }

  /** What a sink was sent from one source. */
  function From(log: seq<Delivery>, source: nat): seq<Event>
  {
    if log == [] then []
    else
      var last := log[|log| - 1];
      From(log[..|log| - 1], source) + (if last.source == source then last.events else [])
  }

  lemma FromNext(log: seq<Delivery>, d: Delivery, source: nat)
    ensures From(log + [d], source) == From(log, source) + (if d.source == source then d.events else [])
  {
    assert (log + [d])[..|log|] == log;
  }

  /** The batch a source has read and not yet handed to every sink. */
  function InFlight(src: Source): seq<Event>
  {
    if src.pc.Enriching? || src.pc.Sending? then src.pc.batch else []
  }

  /** What sink number sink has of a source. */
  function SentTo(src: Source, sink: nat): seq<Event>
  {
    if src.pc.Sending? && sink < src.pc.sink then src.delivered + src.pc.batch else src.delivered
  }

  /** Everything read has been decoded and delivered, or is in flight; and all of it is counted. */
  ghost predicate SourceInv(decode: Decoder, src: Source, sinks: nat)
  {
    && BareAll(Decoded(decode, src.raws)) == BareAll(src.delivered + InFlight(src))
    && Accounts(src.stats, decode, src.raws)
    && (src.pc.Enriching? ==> src.pc.i <= |src.pc.batch|)
    && (src.pc.Sending? ==> src.pc.sink <= sinks)
  }

  lemma AdvanceKeeps(decode: Decoder, src: Source, sinks: nat, cancelled: bool, a: Action)
    requires SourceInv(decode, src, sinks)
    ensures SourceInv(decode, Advance(decode, src, sinks, cancelled, a), sinks)
  {
    var after := Advance(decode, src, sinks, cancelled, a);
    if src.pc.Reading? && a.Read? && a.read.Some? {
      DecodedConcat(decode, src.raws, a.read.value);
      EveryRawEventIsCounted(src.stats, decode, src.raws, a.read.value, a.lost);
      var batch := Decoded(decode, a.read.value);
      BareConcat(Decoded(decode, src.raws), batch);
      BareConcat(src.delivered, batch);
      assert src.delivered + [] == src.delivered;
    } else if src.pc.Enriching? && after.pc.Enriching? {
      assert BareAll(after.pc.batch) == BareAll(src.pc.batch);
      BareConcat(src.delivered, src.pc.batch);
      BareConcat(src.delivered, after.pc.batch);
    } else {
      assert after.delivered + InFlight(after) == src.delivered + InFlight(src);
    }
  }

  /** What the sinks hold of a source changes only when that source sends to that sink. */
  lemma SentToNext(decode: Decoder, src: Source, sinks: nat, cancelled: bool, a: Action, sink: nat)
    requires SourceInv(decode, src, sinks) && sink < sinks
    ensures SentTo(Advance(decode, src, sinks, cancelled, a), sink)
         == if Target(src, sinks, a) == Some(sink) then SentTo(src, sink) + src.pc.batch else SentTo(src, sink)
  {
  }

  ghost predicate LogsInv(s: State)
  {
    forall sink, k :: 0 <= sink < |s.logs| && 0 <= k < |s.sources| ==>
      From(s.logs[sink], k) == SentTo(s.sources[k], sink)
  }

  /** A source is in the error channel exactly once if its read failed for good, and else not at all. */
  ghost predicate ErrorsInv(s: State)
  {
    && (forall i :: 0 <= i < |s.errors| ==> s.errors[i] < |s.sources| && s.sources[s.errors[i]].pc == Stopped(true))
    && (forall k :: 0 <= k < |s.sources| && s.sources[k].pc == Stopped(true) ==> k in s.errors)
    && (forall i, j :: 0 <= i < j < |s.errors| ==> s.errors[i] != s.errors[j])
  }

  ghost predicate Inv(decoders: seq<Decoder>, s: State)
  {
    && |s.sources| == |decoders|
    && (forall k :: 0 <= k < |s.sources| ==> SourceInv(decoders[k], s.sources[k], |s.logs|))
    && LogsInv(s)
    && ErrorsInv(s)
  }

  /** What one step of a source's goroutine does to the sinks. */
  lemma NextParts(decoders: seq<Decoder>, s: State, a: Action, sink: nat, k: nat)
    requires |s.sources| == |decoders| && sink < |s.logs| && k < |s.sources|
    requires !a.Cancel? && a.source < |s.sources|
    ensures var src, t := s.sources[a.source], Next(decoders, s, a);
      && (t.sources[k] == if k == a.source then Advance(decoders[k], src, |s.logs|, s.cancelled, a) else s.sources[k])
      && (Target(src, |s.logs|, a) == Some(sink) ==> t.logs[sink] == s.logs[sink] + [Delivery(a.source, src.pc.batch)])
      && (Target(src, |s.logs|, a) != Some(sink) ==> t.logs[sink] == s.logs[sink])
  {
  }

  lemma LogKept(decoders: seq<Decoder>, s: State, a: Action, sink: nat, k: nat)
    requires |s.sources| == |decoders| && sink < |s.logs| && k < |s.sources|
    requires SourceInv(decoders[k], s.sources[k], |s.logs|)
    requires From(s.logs[sink], k) == SentTo(s.sources[k], sink)
    ensures From(Next(decoders, s, a).logs[sink], k) == SentTo(Next(decoders, s, a).sources[k], sink)
  {
    if !a.Cancel? && a.source < |s.sources| {
      NextParts(decoders, s, a, sink, k);
      var src := s.sources[a.source];
      if Target(src, |s.logs|, a) == Some(sink) {
        FromNext(s.logs[sink], Delivery(a.source, src.pc.batch), k);
      }
      if a.source == k {
        SentToNext(decoders[k], src, |s.logs|, s.cancelled, a, sink);
      }
    }
  }

  lemma SourceKept(decoders: seq<Decoder>, s: State, a: Action, k: nat)
    requires |s.sources| == |decoders| && k < |s.sources|
    requires SourceInv(decoders[k], s.sources[k], |s.logs|)
    ensures SourceInv(decoders[k], Next(decoders, s, a).sources[k], |s.logs|)
  {
    if !a.Cancel? && a.source == k {
      AdvanceKeeps(decoders[k], s.sources[k], |s.logs|, s.cancelled, a);
    }
  }

  /** Only the source that takes a step changes, it stops for good, and it reports an error when it does. */
  ghost predicate StepsAt(s: State, t: State, k: nat)
  {
    && k < |s.sources| == |t.sources|
    && (forall i :: 0 <= i < |s.sources| && i != k ==> t.sources[i] == s.sources[i])
    && (s.sources[k].pc.Stopped? ==> t.sources[k].pc == s.sources[k].pc)
    && t.errors == if t.sources[k].pc == Stopped(true) && !s.sources[k].pc.Stopped? then s.errors + [k] else s.errors
  }

  lemma NextStepsAt(decoders: seq<Decoder>, s: State, a: Action)
    requires |s.sources| == |decoders| && !a.Cancel? && a.source < |s.sources|
    ensures StepsAt(s, Next(decoders, s, a), a.source)
  {
  }

  lemma ErrorsKept(s: State, t: State, k: nat)
    requires ErrorsInv(s) && StepsAt(s, t, k)
    ensures ErrorsInv(t)
  {
    forall i | 0 <= i < |t.sources| && t.sources[i].pc == Stopped(true)
      ensures i in t.errors
    {
      assert s.sources[i].pc == Stopped(true) ==> i in s.errors;
    }
  }

  lemma {:induction false} InvRun(decoders: seq<Decoder>, sinks: nat, actions: seq<Action>)
    ensures Inv(decoders, Run(decoders, sinks, actions))
  {
    if actions != [] {
      var s, a := Run(decoders, sinks, actions[..|actions| - 1]), actions[|actions| - 1];
      InvRun(decoders, sinks, actions[..|actions| - 1]);
      InvNext(decoders, s, a);
    }
  }

  lemma InvNext(decoders: seq<Decoder>, s: State, a: Action)
    requires Inv(decoders, s)
    ensures Inv(decoders, Next(decoders, s, a))
  {
    var t := Next(decoders, s, a);
    forall k | 0 <= k < |t.sources|
      ensures SourceInv(decoders[k], t.sources[k], |t.logs|)
    {
      SourceKept(decoders, s, a, k);
    }
    forall sink, k | 0 <= sink < |t.logs| && 0 <= k < |t.sources|
      ensures From(t.logs[sink], k) == SentTo(t.sources[k], sink)
    {
      LogKept(decoders, s, a, sink, k);
    }
    if !a.Cancel? && a.source < |s.sources| {
      NextStepsAt(decoders, s, a);
      ErrorsKept(s, t, a.source);
    }
  }

  /** Everything that was read from a source, as the run's own reads have it. */
  ghost function Raws(decoders: seq<Decoder>, sinks: nat, actions: seq<Action>, k: nat): seq<Bytes>
    requires k < |decoders|
  {
    if actions == [] then []
    else
      var front, a := actions[..|actions| - 1], actions[|actions| - 1];
      Raws(decoders, sinks, front, k)
      + (if a.Read? && a.source == k && a.read.Some? && Run(decoders, sinks, front).sources[k].pc.Reading?
         then a.read.value else [])
  }

  lemma RawsNext(decoders: seq<Decoder>, s: State, a: Action, k: nat)
    requires k < |decoders| == |s.sources|
    ensures Next(decoders, s, a).sources[k].raws == s.sources[k].raws
         + (if a.Read? && a.source == k && a.read.Some? && s.sources[k].pc.Reading? then a.read.value else [])
  {
  }

  lemma {:induction false} RawsAre(decoders: seq<Decoder>, sinks: nat, actions: seq<Action>, k: nat)
    requires k < |decoders|
    ensures Run(decoders, sinks, actions).sources[k].raws == Raws(decoders, sinks, actions, k)
  {
    if actions != [] {
      var front, a := actions[..|actions| - 1], actions[|actions| - 1];
      RawsAre(decoders, sinks, front, k);
      RawsNext(decoders, Run(decoders, sinks, front), a, k);
    }
  }

  lemma BareIs(a: Event, b: Event)
    requires Bare(a) == Bare(b)
    ensures a == b.(comm := a.comm)
  {
  }

  lemma SameButNames(a: seq<Event>, b: seq<Event>)
    requires |a| <= |b| && BareAll(a) == BareAll(b)[..|a|]
    ensures forall i :: 0 <= i < |a| ==> a[i] == b[i].(comm := a[i].comm)
  {
    forall i | 0 <= i < |a|
      ensures a[i] == b[i].(comm := a[i].comm)
    {
      assert BareAll(a)[i] == BareAll(b)[i];
      BareIs(a[i], b[i]);
    }
  }

  /**
   Apart from the names that enrichment fills in, every sink has received of every source the
   beginning of what was read and could be decoded, in order; all that is missing is the one
   batch in flight.
   */
  lemma {:induction false} SinksFollowTheSource(decoders: seq<Decoder>, sinks: nat, actions: seq<Action>,
          sink: nat, k: nat)
    requires sink < sinks && k < |decoders|
    ensures var s := Run(decoders, sinks, actions);
      var got, decoded := From(s.logs[sink], k), Decoded(decoders[k], Raws(decoders, sinks, actions, k));
      && |got| <= |decoded|
      && (forall i :: 0 <= i < |got| ==> got[i] == decoded[i].(comm := got[i].comm))
      && (|decoded| == |got| || |decoded| == |got| + |InFlight(s.sources[k])|)
  {
    InvRun(decoders, sinks, actions);
    RawsAre(decoders, sinks, actions, k);
    var s := Run(decoders, sinks, actions);
    var src := s.sources[k];
    var got, decoded := From(s.logs[sink], k), Decoded(decoders[k], src.raws);
    BareConcat(src.delivered, InFlight(src));
    assert |BareAll(decoded)| == |src.delivered + InFlight(src)|;
    SameButNames(got, decoded);
  }

  /** Of one source, an earlier sink has what a later sink has, or one batch more. */
  lemma {:induction false} SinksDifferByOneBatch(decoders: seq<Decoder>, sinks: nat, actions: seq<Action>,
          first: nat, second: nat, k: nat)
    requires first <= second < sinks && k < |decoders|
    ensures var s := Run(decoders, sinks, actions);
      var a, b := From(s.logs[first], k), From(s.logs[second], k);
      a == b || a == b + InFlight(s.sources[k])
  {
    InvRun(decoders, sinks, actions);
  }

  /** Cancellation tears no batch: a source that has stopped has given every sink all that could be decoded. */
  lemma {:induction false} StoppedMeansDelivered(decoders: seq<Decoder>, sinks: nat, actions: seq<Action>,
          sink: nat, k: nat)
    requires sink < sinks && k < |decoders|
    requires Run(decoders, sinks, actions).sources[k].pc.Stopped?
    ensures |From(Run(decoders, sinks, actions).logs[sink], k)|
         == |Decoded(decoders[k], Raws(decoders, sinks, actions, k))|
  {
    SinksFollowTheSource(decoders, sinks, actions, sink, k);
    InvRun(decoders, sinks, actions);
  }

  /** The counters have counted everything that was read. */
  lemma {:induction false} CountersAccount(decoders: seq<Decoder>, sinks: nat, actions: seq<Action>, k: nat)
    requires k < |decoders|
    ensures Accounts(Run(decoders, sinks, actions).sources[k].stats, decoders[k], Raws(decoders, sinks, actions, k))
  {
    InvRun(decoders, sinks, actions);
    RawsAre(decoders, sinks, actions, k);
  }

  /** The error channel has room for every source, so that no goroutine is ever stuck on it. */
  lemma {:induction false} ErrorChannelSuffices(decoders: seq<Decoder>, sinks: nat, actions: seq<Action>)
    ensures |Run(decoders, sinks, actions).errors| <= |decoders|
  {
    InvRun(decoders, sinks, actions);
    DistinctBelow(Run(decoders, sinks, actions).errors, UpTo(|decoders|));
  }

  function UpTo(n: nat): (r: set<nat>)
    ensures |r| == n && forall x: nat :: x in r <==> x < n
  {
    if n == 0 then {} else UpTo(n - 1) + {n - 1}
  }

  lemma {:induction false} DistinctBelow(xs: seq<nat>, within: set<nat>)
    requires forall x :: x in xs ==> x in within
    requires forall i, j :: 0 <= i < j < |xs| ==> xs[i] != xs[j]
    ensures |xs| <= |within|
  {
    if xs != [] {
      var front, last := xs[..|xs| - 1], xs[|xs| - 1];
      assert last !in front && last in xs;
      DistinctBelow(front, within - {last});
    }
  }

  /** What Run returns. */
  datatype Result = NoSources | Finished | Failed(source: nat)

  /** Without a source Run fails at once; else, when all goroutines are done, with the first error in the channel. */
  function ResultOf(s: State): Result
  {
    if s.sources == [] then NoSources
    else if s.errors == [] then Finished
    else Failed(s.errors[0])
  }

  ghost predicate Cancelled(actions: seq<Action>)
  {
    exists i :: 0 <= i < |actions| && actions[i].Cancel?
  }

  lemma {:induction false} CancelledIs(decoders: seq<Decoder>, sinks: nat, actions: seq<Action>)
    ensures Run(decoders, sinks, actions).cancelled <==> Cancelled(actions)
  {
    if actions != [] {
      var front := actions[..|actions| - 1];
      CancelledIs(decoders, sinks, front);
      assert forall i :: 0 <= i < |front| ==> front[i] == actions[i];
    }
  }

  /** Action i is a read of source k that fails although nothing has been cancelled. */
  ghost predicate FailsAt(decoders: seq<Decoder>, sinks: nat, actions: seq<Action>, i: nat, k: nat)
    requires i < |actions| && k < |decoders|
  {
    && actions[i].Read? && actions[i].source == k && actions[i].read.None?
    && Run(decoders, sinks, actions[..i]).sources[k].pc.Reading?
    && !Cancelled(actions[..i])
  }

  lemma FailsAtPrefix(decoders: seq<Decoder>, sinks: nat, actions: seq<Action>, n: nat, i: nat, k: nat)
    requires i < n <= |actions| && k < |decoders|
    ensures FailsAt(decoders, sinks, actions[..n], i, k) <==> FailsAt(decoders, sinks, actions, i, k)
  {
    assert actions[..n][..i] == actions[..i];
  }

  lemma ErrorsGrow(decoders: seq<Decoder>, s: State, a: Action, k: nat)
    requires k < |decoders| == |s.sources|
    ensures k in Next(decoders, s, a).errors
       <==> || k in s.errors
            || (a.Read? && a.source == k && a.read.None? && s.sources[k].pc.Reading? && !s.cancelled)
  {
  }

  /** Some read of the source fails before anything is cancelled. */
  ghost predicate Fails(decoders: seq<Decoder>, sinks: nat, actions: seq<Action>, k: nat)
    requires k < |decoders|
  {
    exists i :: 0 <= i < |actions| && FailsAt(decoders, sinks, actions, i, k)
  }

  lemma FailsNext(decoders: seq<Decoder>, sinks: nat, actions: seq<Action>, n: nat, k: nat)
    requires k < |decoders| && |actions| == n + 1
    ensures Fails(decoders, sinks, actions, k)
       <==> Fails(decoders, sinks, actions[..n], k) || FailsAt(decoders, sinks, actions, n, k)
  {
    forall i | 0 <= i < n
      ensures FailsAt(decoders, sinks, actions[..n], i, k) <==> FailsAt(decoders, sinks, actions, i, k)
    {
      FailsAtPrefix(decoders, sinks, actions, n, i, k);
    }
  }

  lemma {:induction false} ErrorsAre(decoders: seq<Decoder>, sinks: nat, actions: seq<Action>, k: nat)
    requires k < |decoders|
    ensures k in Run(decoders, sinks, actions).errors <==> Fails(decoders, sinks, actions, k)
  {
    if actions != [] {
      var n := |actions| - 1;
      ErrorsAre(decoders, sinks, actions[..n], k);
      CancelledIs(decoders, sinks, actions[..n]);
      FailsNext(decoders, sinks, actions, n, k);
      ErrorsGrow(decoders, Run(decoders, sinks, actions[..n]), actions[n], k);
    }
  }

  ghost predicate SomeFails(decoders: seq<Decoder>, sinks: nat, actions: seq<Action>, i: nat)
    requires i < |actions|
  {
    exists k :: 0 <= k < |decoders| && FailsAt(decoders, sinks, actions, i, k)
  }

  /** The read of source k at action i fails before anything is cancelled, and no read did before. */
  ghost predicate FailsFirst(decoders: seq<Decoder>, sinks: nat, actions: seq<Action>, i: nat, k: nat)
    requires i < |actions| && k < |decoders|
  {
    FailsAt(decoders, sinks, actions, i, k) && forall j :: 0 <= j < i ==> !SomeFails(decoders, sinks, actions, j)
  }

  lemma NoneFailsOn(decoders: seq<Decoder>, sinks: nat, actions: seq<Action>, n: nat, j: nat)
    requires j < n <= |actions| && !SomeFails(decoders, sinks, actions[..n], j)
    ensures !SomeFails(decoders, sinks, actions, j)
  {
    if SomeFails(decoders, sinks, actions, j) {
      var k :| 0 <= k < |decoders| && FailsAt(decoders, sinks, actions, j, k);
      FailsAtPrefix(decoders, sinks, actions, n, j, k);
    }
  }

  lemma FailsFirstPrefix(decoders: seq<Decoder>, sinks: nat, actions: seq<Action>, n: nat, i: nat, k: nat)
    requires i < n <= |actions| && k < |decoders|
    requires FailsFirst(decoders, sinks, actions[..n], i, k)
    ensures FailsFirst(decoders, sinks, actions, i, k)
  {
    FailsAtPrefix(decoders, sinks, actions, n, i, k);
    forall j | 0 <= j < i
      ensures !SomeFails(decoders, sinks, actions, j)
    {
      NoneFailsOn(decoders, sinks, actions, n, j);
    }
  }

  lemma NoneFails(decoders: seq<Decoder>, sinks: nat, actions: seq<Action>, i: nat)
    requires i < |actions| && Run(decoders, sinks, actions).errors == []
    ensures !SomeFails(decoders, sinks, actions, i)
  {
    if SomeFails(decoders, sinks, actions, i) {
      var k :| 0 <= k < |decoders| && FailsAt(decoders, sinks, actions, i, k);
      ErrorsAre(decoders, sinks, actions, k);
    }
  }

  lemma ErrorsNext(decoders: seq<Decoder>, s: State, a: Action)
    requires |s.sources| == |decoders|
    ensures s.errors <= Next(decoders, s, a).errors
  {
  }

  /** The first error in the channel is that of the first read that fails. */
  lemma {:induction false} FirstErrorIs(decoders: seq<Decoder>, sinks: nat, actions: seq<Action>)
    requires Run(decoders, sinks, actions).errors != []
    ensures var k := Run(decoders, sinks, actions).errors[0];
      k < |decoders| && exists i :: 0 <= i < |actions| && FailsFirst(decoders, sinks, actions, i, k)
  {
    InvRun(decoders, sinks, actions);
    var n, k := |actions| - 1, Run(decoders, sinks, actions).errors[0];
    var s := Run(decoders, sinks, actions[..n]);
    ErrorsNext(decoders, s, actions[n]);
    if s.errors != [] {
      FirstErrorIs(decoders, sinks, actions[..n]);
      var i :| 0 <= i < n && FailsFirst(decoders, sinks, actions[..n], i, k);
      FailsFirstPrefix(decoders, sinks, actions, n, i, k);
    } else {
      ErrorsAre(decoders, sinks, actions, k);
      var i :| 0 <= i <= n && FailsAt(decoders, sinks, actions, i, k);
      forall j | 0 <= j < n
        ensures !SomeFails(decoders, sinks, actions, j)
      {
        NoneFails(decoders, sinks, actions[..n], j);
        NoneFailsOn(decoders, sinks, actions, n, j);
      }
      assert FailsFirst(decoders, sinks, actions, i, k);
    }
  }

  /**
   Run fails exactly when the read of some source fails before anything is cancelled, and names
   the source whose read failed first.
   */
  lemma {:induction false} RunReportsFailures(decoders: seq<Decoder>, sinks: nat, actions: seq<Action>)
    ensures var result := ResultOf(Run(decoders, sinks, actions));
      && (result.NoSources? <==> decoders == [])
      && (result.Failed? <==> exists i :: 0 <= i < |actions| && SomeFails(decoders, sinks, actions, i))
      && (result.Failed? ==>
            result.source < |decoders|
            && exists i :: 0 <= i < |actions| && FailsFirst(decoders, sinks, actions, i, result.source))
  {
    var s := Run(decoders, sinks, actions);
    if s.errors != [] {
      FirstErrorIs(decoders, sinks, actions);
      var i :| 0 <= i < |actions| && FailsFirst(decoders, sinks, actions, i, s.errors[0]);
      assert SomeFails(decoders, sinks, actions, i);
    } else if i :| 0 <= i < |actions| && SomeFails(decoders, sinks, actions, i) {
      NoneFails(decoders, sinks, actions, i);
    }
  }
}
