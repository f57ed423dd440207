/** The one-slot mailbox of a plug-http2 provider over every run: which streams reach an IN call. */
module MatchMailbox {
  import opened MatchProtocol
  import opened MatchPairing

  /** The stream of `o` is in its provider's slot. */
  ghost predicate Waits(s: State, o: OutCall) {
    o in s.outs && s.outs[o].phase.Replied? && s.outs[o].phase.data.provider in s.slots
    && s.slots[s.outs[o].phase.data.provider].stream == o
  }

  ghost predicate HasStream(s: State, k: MatchKey, o: OutCall) {
    k in s.ins && s.ins[k].phase.Established? && s.ins[k].phase.stream == o
  }

  ghost predicate Reached(s: State, o: OutCall) {
    exists k :: HasStream(s, k, o)
  }

  /** Connected, but neither in the slot nor with an IN call. */
  ghost predicate Lost(s: State, o: OutCall) {
    o in s.outs && s.outs[o].phase.Replied? && s.outs[o].connected && !Waits(s, o) && !Reached(s, o)
  }

  /** The step by which the IN call with the reply of `o` takes the stream of `o`. */
  predicate TakesOwn(s: State, o: OutCall, step: Step)
    requires o in s.outs && s.outs[o].phase.Replied?
  {
    step.In? && step.inMove.TakeStream? && step.key in s.ins && s.ins[step.key].phase.Matched?
    && s.ins[step.key].data.provider == s.outs[o].phase.data.provider
    && s.ins[step.key].phase.reply.tunnelId == s.outs[o].phase.tunnelId
  }

  /** A step on the slot other than that: another stream arrives, or another waiter looks. */
  predicate Displaces(s: State, o: OutCall, step: Step)
    requires o in s.outs && s.outs[o].phase.Replied?
  {
    !TakesOwn(s, o, step)
    && (|| (step.In? && step.inMove.TakeStream? && step.key in s.ins
            && s.ins[step.key].data.provider == s.outs[o].phase.data.provider)
        || (step.StreamArrives? && step.out in s.outs && s.outs[step.out].phase.Replied?
            && s.outs[step.out].phase.data.provider == s.outs[o].phase.data.provider))
  }

  /** No stream is both in a slot and with an IN call. */
  ghost predicate SlotsUntaken(s: State) {
    forall p, k :: p in s.slots ==> !HasStream(s, k, s.slots[p].stream)
  }

  ghost predicate StreamsConnected(s: State) {
    forall k, o :: HasStream(s, k, o) ==> o in s.outs && s.outs[o].connected
  }

  // ---- The effect of each step on the mailbox ----

  predicate TouchesSlots(step: Step) {
    step.StreamArrives? || (step.In? && step.inMove.TakeStream?)
  }

  /** Nothing the mailbox is about changed. */
  ghost predicate Quiet(s: State, t: State) {
    && t.slots == s.slots
    && (forall k, o :: HasStream(t, k, o) <==> HasStream(s, k, o))
    && (forall o :: o in s.outs && s.outs[o].phase.Replied? ==> o in t.outs && t.outs[o] == s.outs[o])
  }

  lemma InQuiet(s: State, k: MatchKey, move: InMove)
    requires InEnabled(s, k, move) && !move.TakeStream?
    ensures Quiet(s, InNext(s, k, move))
  {
  }

  lemma MatcherQuiet(s: State, o: OutCall, move: MatcherMove)
    requires MatcherEnabled(s, o, move)
    ensures Quiet(s, MatcherNext(s, o, move))
  {
    var t := MatcherNext(s, o, move);
    forall k
      ensures k in t.ins <==> k in s.ins
      ensures k in s.ins ==> t.ins[k].phase == s.ins[k].phase
    {
    }
  }

  lemma AnnouncerQuiet(s: State, o: OutCall, move: AnnouncerMove)
    requires AnnouncerEnabled(s, o, move)
    ensures Quiet(s, AnnouncerNext(s, o, move))
  {
  }

  lemma QuietStep(s: State, step: Step)
    requires Enabled(s, step) && !TouchesSlots(step)
    ensures Quiet(s, Next(s, step))
  {
    match step {
      case Tick(ms) =>
      case In(k, move) => InQuiet(s, k, move);
      case OutSubscribe(o, outId) =>
      case OutAnnouncer(o, move) => AnnouncerQuiet(s, o, move);
      case OutMatcher(o, move) => MatcherQuiet(s, o, move);
      case OutCrash(o) =>
    }
  }

  lemma TakeEffect(s: State, k: MatchKey)
    requires InEnabled(s, k, TakeStream)
    ensures var t := TakeStreamStep(s, k);
            var p := s.ins[k].data.provider;
            && t.outs == s.outs && t.slots == s.slots - {p}
            && (forall j, o :: HasStream(t, j, o) <==>
                 HasStream(s, j, o)
                 || (j == k && o == s.slots[p].stream && s.slots[p].tunnelId == s.ins[k].phase.reply.tunnelId))
  {
  }

  lemma ArriveEffect(s: State, x: OutCall)
    requires Enabled(s, StreamArrives(x))
    ensures var t := ArriveStep(s, x);
            && t.ins == s.ins
            && t.slots == s.slots[s.outs[x].phase.data.provider := Arrived(s.outs[x].phase.tunnelId, x)]
            && (forall o :: o in s.outs ==> o in t.outs && t.outs[o].phase == s.outs[o].phase
                                            && t.outs[o].connected == (s.outs[o].connected || o == x))
  {
  }

  // ---- Invariants of the mailbox ----

  ghost predicate MailOk(s: State) {
    SlotsOk(s) && SlotsUntaken(s) && StreamsConnected(s)
  }

  lemma InvGivesConnected(s: State)
    requires Inv(s)
    ensures SlotsOk(s) && StreamsConnected(s)
    ensures forall o :: o in s.outs && s.outs[o].connected ==> s.outs[o].phase.Replied?
  {
  }

  lemma UntakenAfterTake(s: State, k: MatchKey)
    requires MailOk(s) && InEnabled(s, k, TakeStream)
    ensures SlotsUntaken(TakeStreamStep(s, k))
  {
    TakeEffect(s, k);
    var t := TakeStreamStep(s, k);
    forall p, j | p in t.slots
      ensures !HasStream(t, j, t.slots[p].stream)
    {
      assert p in s.slots && !HasStream(s, j, s.slots[p].stream);
    }
  }

  lemma UntakenAfterArrival(s: State, x: OutCall)
    requires MailOk(s) && Enabled(s, StreamArrives(x))
    ensures SlotsUntaken(ArriveStep(s, x))
  {
    ArriveEffect(s, x);
    var t := ArriveStep(s, x);
    forall p, j | p in t.slots
      ensures !HasStream(t, j, t.slots[p].stream)
    {
      assert HasStream(t, j, t.slots[p].stream) <==> HasStream(s, j, t.slots[p].stream);
    }
  }

  lemma UntakenKept(s: State, step: Step)
    requires MailOk(s) && Enabled(s, step)
    ensures SlotsUntaken(Next(s, step))
  {
    if !TouchesSlots(step) {
      QuietStep(s, step);
      UntakenWhenQuiet(s, Next(s, step));
    } else if step.StreamArrives? {
      UntakenAfterArrival(s, step.out);
    } else {
      UntakenAfterTake(s, step.key);
    }
  }

  lemma UntakenWhenQuiet(s: State, t: State)
    requires SlotsUntaken(s) && Quiet(s, t)
    ensures SlotsUntaken(t)
  {
  }

  lemma {:induction false} RunMailOk(steps: seq<Step>)
    requires ValidRun(steps)
    ensures MailOk(After(steps))
  {
    RunKeepsInv(steps);
    InvGivesConnected(After(steps));
    if steps != [] {
      RunMailOk(steps[..|steps| - 1]);
      UntakenKept(After(steps[..|steps| - 1]), steps[|steps| - 1]);
    }
  }

  // ---- The fate of a stream ----

  lemma FateWhenQuiet(s: State, t: State, o: OutCall)
    requires Quiet(s, t) && o in s.outs && s.outs[o].phase.Replied?
    ensures Waits(t, o) <==> Waits(s, o)
    ensures Reached(t, o) <==> Reached(s, o)
    ensures Lost(t, o) <==> Lost(s, o)
  {
  }

  lemma WaitingIsNotReached(s: State, o: OutCall)
    requires MailOk(s) && Waits(s, o)
    ensures !Reached(s, o) && s.outs[o].connected
  {
  }

  lemma FateUnderTake(s: State, k: MatchKey, o: OutCall)
    requires MailOk(s) && InEnabled(s, k, TakeStream)
    requires o in s.outs && s.outs[o].phase.Replied? && s.outs[o].connected
    ensures var t, step := TakeStreamStep(s, k), In(k, TakeStream);
            && (Reached(t, o) <==> Reached(s, o) || (Waits(s, o) && TakesOwn(s, o, step)))
            && (Waits(t, o) <==> Waits(s, o) && !TakesOwn(s, o, step) && !Displaces(s, o, step))
  {
    TakeEffect(s, k);
    var t := TakeStreamStep(s, k);
    var p := s.ins[k].data.provider;
    assert s.slots[p].stream in s.outs;
    if j :| HasStream(s, j, o) {
      assert HasStream(t, j, o);
    }
    if j :| HasStream(t, j, o) {
      assert HasStream(s, j, o) || (j == k && o == s.slots[p].stream);
    }
    if Waits(s, o) && TakesOwn(s, o, In(k, TakeStream)) {
      assert HasStream(t, k, o);
    }
  }

  lemma FateUnderArrival(s: State, x: OutCall, o: OutCall)
    requires MailOk(s) && Enabled(s, StreamArrives(x))
    requires o in s.outs && s.outs[o].phase.Replied? && s.outs[o].connected
    ensures var t, step := ArriveStep(s, x), StreamArrives(x);
            && (Reached(t, o) <==> Reached(s, o))
            && (Waits(t, o) <==> Waits(s, o) && !Displaces(s, o, step))
  {
    ArriveEffect(s, x);
    var t := ArriveStep(s, x);
    if j :| HasStream(s, j, o) {
      assert HasStream(t, j, o);
    }
    if j :| HasStream(t, j, o) {
      assert HasStream(s, j, o);
    }
  }

  /** Under one step: a stream in the slot goes to its own waiter by that waiter's take, is lost by
      any other step on the slot, and stays otherwise; a stream once reached or lost stays so. */
  lemma StepFate(s: State, step: Step, o: OutCall)
    requires MailOk(s) && Enabled(s, step)
    requires o in s.outs && s.outs[o].phase.Replied? && s.outs[o].connected
    ensures Reached(Next(s, step), o) <==> Reached(s, o) || (Waits(s, o) && TakesOwn(s, o, step))
    ensures Waits(Next(s, step), o) <==> Waits(s, o) && !TakesOwn(s, o, step) && !Displaces(s, o, step)
    ensures o in Next(s, step).outs && Next(s, step).outs[o].phase == s.outs[o].phase && Next(s, step).outs[o].connected
  {
    if !TouchesSlots(step) {
      QuietStep(s, step);
      FateWhenQuiet(s, Next(s, step), o);
    } else if step.StreamArrives? {
      ArriveEffect(s, step.out);
      FateUnderArrival(s, step.out, o);
    } else {
      TakeEffect(s, step.key);
      FateUnderTake(s, step.key, o);
    }
  }

  lemma {:induction false} RunPrefix(steps: seq<Step>, n: nat)
    requires ValidRun(steps) && n <= |steps|
    ensures ValidRun(steps[..n])
    ensures n < |steps| ==> ValidRun(steps[..n + 1]) && Enabled(After(steps[..n]), steps[n])
                            && After(steps[..n + 1]) == Next(After(steps[..n]), steps[n])
    decreases |steps|
  {
    var last := |steps| - 1;
    if n >= last {
      assert steps[..n] == if n == last then steps[..last] else steps;
      assert n == last ==> steps[..n + 1] == steps;
    } else {
      RunPrefix(steps[..last], n);
      assert steps[..last][..n] == steps[..n] && steps[..last][..n + 1] == steps[..n + 1];
    }
  }

  /** Once a stream is out of the slot its fate stands to the end of the run. */
  lemma {:induction false} FateStands(steps: seq<Step>, m: nat, o: OutCall)
    requires ValidRun(steps) && m <= |steps| && ValidRun(steps[..m])
    requires var s := After(steps[..m]);
             o in s.outs && s.outs[o].phase.Replied? && s.outs[o].connected && !Waits(s, o)
    ensures var t := After(steps);
            o in t.outs && t.outs[o].phase.Replied? && t.outs[o].connected && !Waits(t, o)
    ensures Reached(After(steps), o) <==> Reached(After(steps[..m]), o)
    decreases |steps|
  {
    var last := |steps| - 1;
    if m == |steps| {
      assert steps[..m] == steps;
    } else {
      assert steps[..last][..m] == steps[..m];
      FateStands(steps[..last], m, o);
      RunMailOk(steps[..last]);
      StepFate(After(steps[..last]), steps[last], o);
    }
  }

  /** The mailbox delivers a stream iff the first step on its slot after it arrived is its own
      waiter's; otherwise the stream is lost for good. */
  lemma MailboxDelivers(steps: seq<Step>, m: nat, o: OutCall)
    requires ValidRun(steps) && m < |steps| && ValidRun(steps[..m]) && Waits(After(steps[..m]), o)
    requires TakesOwn(After(steps[..m]), o, steps[m]) || Displaces(After(steps[..m]), o, steps[m])
    ensures Reached(After(steps), o) <==> TakesOwn(After(steps[..m]), o, steps[m])
    ensures Lost(After(steps), o) <==> Displaces(After(steps[..m]), o, steps[m])
  {
    RunPrefix(steps, m);
    RunMailOk(steps[..m]);
    WaitingIsNotReached(After(steps[..m]), o);
    StepFate(After(steps[..m]), steps[m], o);
    FateStands(steps, m + 1, o);
  }
}
