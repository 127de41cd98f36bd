/** The sources get on: what is read reaches the sinks, until something is cancelled. */
module PipelineProgress {
  import opened Wrappers
  import opened U64
  import opened PipelineSource
  import opened PipelineRun

  lemma RunNext(decoders: seq<Decoder>, sinks: nat, actions: seq<Action>, a: Action)
    ensures Run(decoders, sinks, actions + [a]) == Next(decoders, Run(decoders, sinks, actions), a)
  {
    assert (actions + [a])[..|actions|] == actions;
  }

  lemma Regroup(a: seq<Action>, b: seq<Action>, c: seq<Action>)
    ensures a + (b + c) == a + b + c
  {
  }

  /** The run has gone from s to t with nothing changed but what source k does with its batch. */
  ghost predicate OnlyMoved(s: State, t: State, k: nat, pc: Pc)
    requires k < |s.sources|
  {
    t == s.(sources := s.sources[k := s.sources[k].(pc := pc)])
  }

  lemma EnrichOne(decoders: seq<Decoder>, s: State, k: nat, e: Event)
    requires k < |decoders| == |s.sources| && s.sources[k].pc.Enriching?
    requires var pc := s.sources[k].pc; pc.i < |pc.batch| && Bare(e) == Bare(pc.batch[pc.i])
    ensures var pc := s.sources[k].pc;
            OnlyMoved(s, Next(decoders, s, Enrich(k, e)), k, Enriching(pc.batch[pc.i := e], pc.i + 1))
  {
  }

  lemma EnrichDone(decoders: seq<Decoder>, s: State, k: nat)
    requires k < |decoders| == |s.sources| && s.sources[k].pc.Enriching?
    requires s.sources[k].pc.i == |s.sources[k].pc.batch|
    ensures OnlyMoved(s, Next(decoders, s, Send(k)), k, Sending(s.sources[k].pc.batch, 0))
  {
  }

  lemma {:induction false} EnrichRest(decoders: seq<Decoder>, sinks: nat, actions: seq<Action>, k: nat,
          enriched: seq<Event>)
    returns (more: seq<Action>)
    requires k < |decoders| && Run(decoders, sinks, actions).sources[k].pc.Enriching?
    requires var pc := Run(decoders, sinks, actions).sources[k].pc;
             pc.i <= |pc.batch| == |enriched| && pc.batch[..pc.i] == enriched[..pc.i]
             && BareAll(pc.batch) == BareAll(enriched)
    ensures OnlyMoved(Run(decoders, sinks, actions), Run(decoders, sinks, actions + more), k, Sending(enriched, 0))
    decreases |enriched| - Run(decoders, sinks, actions).sources[k].pc.i
  {
    var s := Run(decoders, sinks, actions);
    var batch, i := s.sources[k].pc.batch, s.sources[k].pc.i;
    if i == |batch| {
      assert batch == enriched;
      more := [Send(k)];
      RunNext(decoders, sinks, actions, Send(k));
      EnrichDone(decoders, s, k);
    } else {
      var a := Enrich(k, enriched[i]);
      assert BareAll(batch)[i] == BareAll(enriched)[i];
      RunNext(decoders, sinks, actions, a);
      EnrichOne(decoders, s, k, enriched[i]);
      assert BareAll(batch[i := enriched[i]]) == BareAll(batch);
      assert batch[i := enriched[i]][..i + 1] == enriched[..i + 1];
      var rest := EnrichRest(decoders, sinks, actions + [a], k, enriched);
      more := [a] + rest;
      Regroup(actions, [a], rest);
    }
  }

  /** The sinks from number first on get the batch. */
  ghost predicate Handed(s: State, t: State, k: nat, batch: seq<Event>, first: nat)
    requires k < |s.sources|
  {
    && t.sources == s.sources[k := s.sources[k].(pc := Top, delivered := s.sources[k].delivered + batch)]
    && t.errors == s.errors && t.cancelled == s.cancelled && |t.logs| == |s.logs|
    && forall j :: 0 <= j < |s.logs| ==> t.logs[j] == if j < first then s.logs[j] else s.logs[j] + [Delivery(k, batch)]
  }

  lemma {:induction false} SendRest(decoders: seq<Decoder>, sinks: nat, actions: seq<Action>, k: nat)
    returns (more: seq<Action>)
    requires k < |decoders| && Run(decoders, sinks, actions).sources[k].pc.Sending?
    requires Run(decoders, sinks, actions).sources[k].pc.sink <= sinks
    ensures var s := Run(decoders, sinks, actions);
            Handed(s, Run(decoders, sinks, actions + more), k, s.sources[k].pc.batch, s.sources[k].pc.sink)
    decreases sinks - Run(decoders, sinks, actions).sources[k].pc.sink
  {
    RunNext(decoders, sinks, actions, Send(k));
    if Run(decoders, sinks, actions).sources[k].pc.sink == sinks {
      more := [Send(k)];
    } else {
      var rest := SendRest(decoders, sinks, actions + [Send(k)], k);
      more := [Send(k)] + rest;
      Regroup(actions, [Send(k)], rest);
    }
  }

  lemma MovedAndHanded(s: State, u: State, t: State, k: nat, batch: seq<Event>)
    requires k < |s.sources| && OnlyMoved(s, u, k, Sending(batch, 0)) && Handed(u, t, k, batch, 0)
    ensures Handed(s, t, k, batch, 0)
  {
  }

  lemma FinishRound(decoders: seq<Decoder>, sinks: nat, actions: seq<Action>, k: nat, enriched: seq<Event>)
    returns (more: seq<Action>)
    requires k < |decoders|
    requires exists batch :: Run(decoders, sinks, actions).sources[k].pc == Enriching(batch, 0)
                             && BareAll(batch) == BareAll(enriched) && |batch| == |enriched|
    ensures Handed(Run(decoders, sinks, actions), Run(decoders, sinks, actions + more), k, enriched, 0)
  {
    var enrich := EnrichRest(decoders, sinks, actions, k, enriched);
    var send := SendRest(decoders, sinks, actions + enrich, k);
    more := enrich + send;
    Regroup(actions, enrich, send);
    MovedAndHanded(Run(decoders, sinks, actions), Run(decoders, sinks, actions + enrich),
                   Run(decoders, sinks, actions + more), k, enriched);
  }

  /** Finding that nothing is cancelled, and reading. */
  lemma ReadOne(decoders: seq<Decoder>, s: State, k: nat, raws: seq<Bytes>, lost: u64)
    requires k < |decoders| == |s.sources| && s.sources[k].pc.Top? && !s.cancelled
    ensures var reading := Next(decoders, s, Check(k));
            var t := Next(decoders, reading, Read(k, Some(raws), lost));
            && reading.sources[k].pc.Reading? && t.logs == s.logs
            && t.sources[k].pc == (if Decoded(decoders[k], raws) == [] then Top
                                   else Enriching(Decoded(decoders[k], raws), 0))
  {
  }

  /** The first actions of a round. */
  function Begun(actions: seq<Action>, k: nat, raws: seq<Bytes>, lost: u64): seq<Action>
  {
    actions + [Check(k)] + [Read(k, Some(raws), lost)]
  }

  lemma RoundBegins(decoders: seq<Decoder>, sinks: nat, actions: seq<Action>, k: nat, raws: seq<Bytes>, lost: u64)
    requires k < |decoders| && !Cancelled(actions) && Run(decoders, sinks, actions).sources[k].pc.Top?
    ensures var s, t := Run(decoders, sinks, actions), Run(decoders, sinks, Begun(actions, k, raws, lost));
            && t.logs == s.logs
            && Raws(decoders, sinks, Begun(actions, k, raws, lost), k) == Raws(decoders, sinks, actions, k) + raws
            && t.sources[k].pc == (if Decoded(decoders[k], raws) == [] then Top
                                   else Enriching(Decoded(decoders[k], raws), 0))
  {
    var s, check, read := Run(decoders, sinks, actions), Check(k), Read(k, Some(raws), lost);
    CancelledIs(decoders, sinks, actions);
    RunNext(decoders, sinks, actions, check);
    RunNext(decoders, sinks, actions + [check], read);
    ReadOne(decoders, s, k, raws, lost);
    RawsAre(decoders, sinks, actions, k);
    RawsAre(decoders, sinks, Begun(actions, k, raws, lost), k);
    RawsNext(decoders, s, check, k);
    RawsNext(decoders, Next(decoders, s, check), read, k);
    assert s.sources[k].raws + [] == s.sources[k].raws;
  }

  lemma BatchHanded(s: State, t: State, k: nat, batch: seq<Event>, sink: nat)
    requires k < |s.sources| && sink < |s.logs| && Handed(s, t, k, batch, 0)
    ensures From(t.logs[sink], k) == From(s.logs[sink], k) + batch
  {
    FromNext(s.logs[sink], Delivery(k, batch), k);
  }

  /**
   From any reachable state in which nothing is cancelled and a source is about to read: whatever
   it reads and whatever names its events get, the run can go on so that every sink gets exactly
   the events that can be decoded, and the source is about to read again.
   */
  lemma RoundDelivers(decoders: seq<Decoder>, sinks: nat, actions: seq<Action>, k: nat, raws: seq<Bytes>, lost: u64,
          enriched: seq<Event>)
    returns (more: seq<Action>)
    requires k < |decoders| && !Cancelled(actions) && Run(decoders, sinks, actions).sources[k].pc.Top?
    requires BareAll(enriched) == BareAll(Decoded(decoders[k], raws))
    ensures var s, t := Run(decoders, sinks, actions), Run(decoders, sinks, actions + more);
            && t.sources[k].pc.Top?
            && Raws(decoders, sinks, actions + more, k) == Raws(decoders, sinks, actions, k) + raws
            && forall sink :: 0 <= sink < sinks ==> From(t.logs[sink], k) == From(s.logs[sink], k) + enriched
  {
    var begun, batch := Begun(actions, k, raws, lost), Decoded(decoders[k], raws);
    RoundBegins(decoders, sinks, actions, k, raws, lost);
    Regroup(actions, [Check(k)], [Read(k, Some(raws), lost)]);
    assert |enriched| == |BareAll(enriched)| == |batch|;
    if enriched == [] {
      more := [Check(k)] + [Read(k, Some(raws), lost)];
    } else {
      var rest := FinishRound(decoders, sinks, begun, k, enriched);
      more := [Check(k)] + [Read(k, Some(raws), lost)] + rest;
      Regroup(actions, [Check(k)] + [Read(k, Some(raws), lost)], rest);
      var before, t := Run(decoders, sinks, begun), Run(decoders, sinks, begun + rest);
      forall sink | 0 <= sink < sinks
        ensures From(t.logs[sink], k) == From(before.logs[sink], k) + enriched
      {
        BatchHanded(before, t, k, enriched, sink);
      }
      RawsAre(decoders, sinks, begun, k);
      RawsAre(decoders, sinks, begun + rest, k);
    }
  }

  /** Action i is a read of source k. */
  ghost predicate ReadsAt(decoders: seq<Decoder>, sinks: nat, actions: seq<Action>, i: nat, k: nat)
    requires i < |actions| && k < |decoders|
  {
    actions[i].Read? && actions[i].source == k && Run(decoders, sinks, actions[..i]).sources[k].pc.Reading?
  }

  /** At action c the source finds that nothing is cancelled, and it has not read since. */
  ghost predicate Permitted(decoders: seq<Decoder>, sinks: nat, actions: seq<Action>, c: nat, k: nat)
    requires c < |actions| && k < |decoders|
  {
    && actions[c] == Check(k) && !Cancelled(actions[..c])
    && forall i :: c < i < |actions| ==> !ReadsAt(decoders, sinks, actions, i, k)
  }

  lemma PermittedOn(decoders: seq<Decoder>, sinks: nat, actions: seq<Action>, c: nat, k: nat)
    requires k < |decoders| && c + 1 < |actions|
    requires Permitted(decoders, sinks, actions[..|actions| - 1], c, k)
    requires !ReadsAt(decoders, sinks, actions, |actions| - 1, k)
    ensures Permitted(decoders, sinks, actions, c, k)
  {
    var front := actions[..|actions| - 1];
    assert front[..c] == actions[..c];
    forall i | c < i < |front|
      ensures !ReadsAt(decoders, sinks, actions, i, k)
    {
      assert front[..i] == actions[..i];
      assert !ReadsAt(decoders, sinks, front, i, k);
    }
  }

  /** A source begins to read by finding that nothing is cancelled, and reading ends it. */
  lemma ReadingNext(decoders: seq<Decoder>, s: State, a: Action, k: nat)
    requires k < |decoders| == |s.sources| && Next(decoders, s, a).sources[k].pc.Reading?
    ensures if s.sources[k].pc.Reading? then !(a.Read? && a.source == k) else a == Check(k) && !s.cancelled
  {
  }

  lemma {:induction false} ReadingIsPermitted(decoders: seq<Decoder>, sinks: nat, actions: seq<Action>, k: nat)
    requires k < |decoders| && Run(decoders, sinks, actions).sources[k].pc.Reading?
    ensures exists c :: 0 <= c < |actions| && Permitted(decoders, sinks, actions, c, k)
  {
    if actions == [] {
      assert false;
    } else {
      var n := |actions| - 1;
      var s := Run(decoders, sinks, actions[..n]);
      CancelledIs(decoders, sinks, actions[..n]);
      ReadingNext(decoders, s, actions[n], k);
      if s.sources[k].pc.Reading? {
        ReadingIsPermitted(decoders, sinks, actions[..n], k);
        var c :| 0 <= c < n && Permitted(decoders, sinks, actions[..n], c, k);
        PermittedOn(decoders, sinks, actions, c, k);
      } else {
        assert Permitted(decoders, sinks, actions, n, k);
      }
    }
  }

  /** Before each read, and since any earlier one, the source has found nothing cancelled: one at most is late. */
  lemma EachReadIsPermitted(decoders: seq<Decoder>, sinks: nat, actions: seq<Action>, i: nat, k: nat)
    requires i < |actions| && k < |decoders| && ReadsAt(decoders, sinks, actions, i, k)
    ensures exists c :: 0 <= c < i && Permitted(decoders, sinks, actions[..i], c, k)
  {
    ReadingIsPermitted(decoders, sinks, actions[..i], k);
  }
}
