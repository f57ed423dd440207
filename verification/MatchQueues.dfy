/** What waits in the subscriptions of the two sides, and what the calls take from them: first in, first out. */
module MatchQueues {
  import opened Prelude
  import opened Ids
  import opened MatchProtocol
  import opened MatchLeases

  // ---- Replies to an IN call ----

  /** What this step brings the call while it listens: the reply of an OUT call that answers its announcement. */
  ghost function ReplyBy(s: State, step: Step, k: MatchKey): seq<Reply>
    requires Enabled(s, step)
  {
    if step.OutMatcher? && step.matcherMove.PublishReply? && s.outs[step.out].phase.ann.key == k
       && k in s.ins && Listening(s.ins[k])
    then [Reply(s.outs[step.out].outId, step.matcherMove.tunnelId)] else []
  }

  /** All replies that reached the call, in order. */
  ghost function RepliesTo(steps: seq<Step>, k: MatchKey): seq<Reply>
    requires ValidRun(steps)
  {
    if steps == [] then []
    else
      var front := steps[..|steps| - 1];
      RepliesTo(front, k) + ReplyBy(After(front), steps[|steps| - 1], k)
  }

  /** How many of them were lost. */
  function LostReplies(steps: seq<Step>, k: MatchKey): nat {
    if steps == [] then 0
    else LostReplies(steps[..|steps| - 1], k) + if steps[|steps| - 1] == In(k, LoseReply) then 1 else 0
  }

  ghost predicate HoldsReplies(s: State, k: MatchKey, replies: seq<Reply>, lost: nat) {
    if k in s.ins then Listening(s.ins[k]) ==> lost <= |replies| && s.ins[k].inbox == replies[lost..]
    else replies == [] && lost == 0
  }

  lemma InQueues(s: State, j: MatchKey, move: InMove, k: MatchKey, replies: seq<Reply>, lost: nat)
    requires InEnabled(s, j, move) && HoldsReplies(s, k, replies, lost)
    ensures HoldsReplies(InNext(s, j, move), k, replies, lost + if j == k && move.LoseReply? then 1 else 0)
  {
    match move {
      case Subscribe(_, _, _) =>
      case Check =>
      case StoreData =>
      case Announce =>
      case RenewData =>
      case Receive =>
      case LoseReply =>
      case Fail =>
      case TakeStream =>
    }
  }

  lemma MatcherQueues(s: State, o: OutCall, move: MatcherMove, k: MatchKey, replies: seq<Reply>, lost: nat)
    requires MatcherEnabled(s, o, move) && HoldsReplies(s, k, replies, lost)
    ensures HoldsReplies(MatcherNext(s, o, move), k, replies + ReplyBy(s, OutMatcher(o, move), k), lost)
  {
    if move.PublishReply? {
      PublishQueues(s, o, move.tunnelId, move.seen, k, replies, lost);
    } else {
      assert MatcherNext(s, o, move).ins == s.ins;
      assert replies + [] == replies;
    }
  }

  lemma Delivers(s: State, key: MatchKey, r: Reply)
    ensures Deliver(s, key, r).ins ==
            if key in s.ins && Listening(s.ins[key]) then
              s.ins[key := s.ins[key].(inbox := s.ins[key].inbox + [r])]
            else s.ins
  {
  }

  lemma PublishBrings(s: State, o: OutCall, t: TunnelId, seen: bool, k: MatchKey)
    requires MatcherEnabled(s, o, PublishReply(t, seen))
    ensures var more, next := ReplyBy(s, OutMatcher(o, PublishReply(t, seen)), k), PublishStep(s, o, t, seen);
            && (k in next.ins <==> k in s.ins)
            && (k in s.ins ==>
                  && Listening(next.ins[k]) == Listening(s.ins[k])
                  && (Listening(s.ins[k]) ==> next.ins[k].inbox == s.ins[k].inbox + more))
            && (k !in s.ins ==> more == [])
  {
    assert MakeTunnel(s, o, t, seen).ins == s.ins;
    Delivers(MakeTunnel(s, o, t, seen), s.outs[o].phase.ann.key, Reply(s.outs[o].outId, t));
  }

  lemma PublishQueues(s: State, o: OutCall, t: TunnelId, seen: bool, k: MatchKey, replies: seq<Reply>, lost: nat)
    requires MatcherEnabled(s, o, PublishReply(t, seen)) && HoldsReplies(s, k, replies, lost)
    ensures var more := ReplyBy(s, OutMatcher(o, PublishReply(t, seen)), k);
            HoldsReplies(PublishStep(s, o, t, seen), k, replies + more, lost)
  {
    var more := ReplyBy(s, OutMatcher(o, PublishReply(t, seen)), k);
    PublishBrings(s, o, t, seen, k);
    QueueSnoc(replies, more, lost);
  }

  lemma QueueSnoc(replies: seq<Reply>, more: seq<Reply>, lost: nat)
    ensures lost <= |replies| ==> (replies + more)[lost..] == replies[lost..] + more
    ensures more == [] ==> replies + more == replies
  {
  }

  lemma StepQueues(s: State, step: Step, k: MatchKey, replies: seq<Reply>, lost: nat)
    requires Enabled(s, step) && HoldsReplies(s, k, replies, lost)
    ensures HoldsReplies(
              Next(s, step), k, replies + ReplyBy(s, step, k), lost + if step == In(k, LoseReply) then 1 else 0)
  {
    assert replies + [] == replies;
    match step {
      case In(j, move) => InQueues(s, j, move, k, replies, lost);
      case OutAnnouncer(o, move) => AnnouncerTables(s, o, move);
      case OutMatcher(o, move) => MatcherQueues(s, o, move, k, replies, lost);
      case Tick(_) =>
      case OutSubscribe(_, _) =>
      case OutCrash(_) =>
      case StreamArrives(_) =>
    }
  }

  /** While a call listens its inbox holds the replies that reached it and were not lost, in order. */
  lemma {:induction false} InboxIs(steps: seq<Step>, k: MatchKey)
    requires ValidRun(steps)
    ensures HoldsReplies(After(steps), k, RepliesTo(steps, k), LostReplies(steps, k))
  {
    if steps != [] {
      var front := steps[..|steps| - 1];
      InboxIs(front, k);
      StepQueues(After(front), steps[|steps| - 1], k, RepliesTo(front, k), LostReplies(front, k));
    }
  }

  /** `match_out` returns the first reply that was not lost. */
  lemma ReceivesFirst(steps: seq<Step>, k: MatchKey)
    requires ValidRun(steps + [In(k, Receive)])
    ensures ValidRun(steps) && LostReplies(steps, k) < |RepliesTo(steps, k)|
    ensures var reply, after := RepliesTo(steps, k)[LostReplies(steps, k)], After(steps + [In(k, Receive)]).ins;
            k in after && after[k].phase == Matched(reply) && after[k].returned == Some(reply)
  {
    RunSnoc(steps, In(k, Receive));
    InboxIs(steps, k);
  }

  // ---- Announcements to an OUT call ----

  /** What this step brings the call while it runs: the announcement of an IN call of its OUT. */
  ghost function AnnouncedBy(s: State, step: Step, o: OutCall): seq<Announcement>
    requires Enabled(s, step)
  {
    if step.In? && step.inMove.Announce? && o in s.outs && Running(s.outs[o])
       && s.outs[o].outId == s.ins[step.key].outId
    then [Announcement(s.ins[step.key].from, step.key)] else []
  }

  ghost function AnnouncementsTo(steps: seq<Step>, o: OutCall): seq<Announcement>
    requires ValidRun(steps)
  {
    if steps == [] then []
    else
      var front := steps[..|steps| - 1];
      AnnouncementsTo(front, o) + AnnouncedBy(After(front), steps[|steps| - 1], o)
  }

  /** How many of them were taken or lost. */
  function GoneAnnouncements(steps: seq<Step>, o: OutCall): nat {
    if steps == [] then 0
    else
      var last := steps[|steps| - 1];
      GoneAnnouncements(steps[..|steps| - 1], o)
      + if last == OutMatcher(o, Pop) || last == OutMatcher(o, LoseAnnouncement) then 1 else 0
  }

  ghost predicate HoldsAnnouncements(s: State, o: OutCall, anns: seq<Announcement>, gone: nat) {
    if o in s.outs then Running(s.outs[o]) ==> gone <= |anns| && s.outs[o].inbox == anns[gone..]
    else anns == [] && gone == 0
  }

  lemma AnnouncementBrings(s: State, k: MatchKey, o: OutCall)
    requires InEnabled(s, k, Announce)
    ensures var t := InNext(s, k, Announce);
            && (o in t.outs <==> o in s.outs)
            && (o in s.outs ==>
                  && Running(t.outs[o]) == Running(s.outs[o])
                  && t.outs[o].inbox == s.outs[o].inbox + AnnouncedBy(s, In(k, Announce), o))
            && (o !in s.outs ==> AnnouncedBy(s, In(k, Announce), o) == [])
  {
  }

  lemma AnnounceQueues(s: State, k: MatchKey, move: InMove, o: OutCall, anns: seq<Announcement>, gone: nat)
    requires InEnabled(s, k, move) && HoldsAnnouncements(s, o, anns, gone)
    ensures HoldsAnnouncements(InNext(s, k, move), o, anns + AnnouncedBy(s, In(k, move), o), gone)
  {
    var more := AnnouncedBy(s, In(k, move), o);
    if move.Announce? {
      AnnouncementBrings(s, k, o);
      AnnouncementsSnoc(anns, more, gone);
    } else {
      assert InNext(s, k, move).outs == s.outs && anns + more == anns;
    }
  }

  lemma AnnouncementsSnoc(anns: seq<Announcement>, more: seq<Announcement>, gone: nat)
    ensures gone <= |anns| ==> (anns + more)[gone..] == anns[gone..] + more
    ensures more == [] ==> anns + more == anns
  {
  }

  lemma TakeQueues(s: State, p: OutCall, move: MatcherMove, o: OutCall, anns: seq<Announcement>, gone: nat)
    requires MatcherEnabled(s, p, move) && HoldsAnnouncements(s, o, anns, gone)
    ensures HoldsAnnouncements(
              MatcherNext(s, p, move), o, anns,
              gone + if p == o && (move.Pop? || move.LoseAnnouncement?) then 1 else 0)
  {
    match move {
      case Pop =>
      case LoseAnnouncement =>
      case LockMutex =>
      case TryLock =>
      case GetData =>
      case PublishReply(_, _) =>
      case MatcherFail =>
    }
  }

  lemma RenewQueues(s: State, p: OutCall, move: AnnouncerMove, o: OutCall, anns: seq<Announcement>, gone: nat)
    requires AnnouncerEnabled(s, p, move) && HoldsAnnouncements(s, o, anns, gone)
    ensures HoldsAnnouncements(AnnouncerNext(s, p, move), o, anns, gone)
  {
    match move {
      case TakeMutex =>
      case SetKey =>
      case PublishKey =>
      case RenewKey =>
      case AnnouncerFail =>
    }
  }

  lemma StepTakes(s: State, step: Step, o: OutCall, anns: seq<Announcement>, gone: nat)
    requires Enabled(s, step) && HoldsAnnouncements(s, o, anns, gone)
    ensures HoldsAnnouncements(
              Next(s, step), o, anns + AnnouncedBy(s, step, o),
              gone + if step == OutMatcher(o, Pop) || step == OutMatcher(o, LoseAnnouncement) then 1 else 0)
  {
    assert anns + [] == anns;
    match step {
      case In(k, move) => AnnounceQueues(s, k, move, o, anns, gone);
      case OutAnnouncer(p, move) => RenewQueues(s, p, move, o, anns, gone);
      case OutMatcher(p, move) => TakeQueues(s, p, move, o, anns, gone);
      case Tick(_) =>
      case OutSubscribe(_, _) =>
      case OutCrash(_) =>
      case StreamArrives(_) =>
    }
  }

  /** While a call runs its inbox holds the announcements to its OUT since it subscribed, but for those taken
      or lost. */
  lemma {:induction false} OutInboxIs(steps: seq<Step>, o: OutCall)
    requires ValidRun(steps)
    ensures HoldsAnnouncements(After(steps), o, AnnouncementsTo(steps, o), GoneAnnouncements(steps, o))
  {
    if steps != [] {
      var front := steps[..|steps| - 1];
      OutInboxIs(front, o);
      StepTakes(After(front), steps[|steps| - 1], o, AnnouncementsTo(front, o), GoneAnnouncements(front, o));
    }
  }

  /** An OUT call takes the announcements in the order they came, those lost left out. */
  lemma PopsFirst(steps: seq<Step>, o: OutCall)
    requires ValidRun(steps + [OutMatcher(o, Pop)])
    ensures ValidRun(steps) && GoneAnnouncements(steps, o) < |AnnouncementsTo(steps, o)|
    ensures var ann := AnnouncementsTo(steps, o)[GoneAnnouncements(steps, o)];
            var after := After(steps + [OutMatcher(o, Pop)]).outs;
            o in after && after[o].phase == Popped(ann)
  {
    RunSnoc(steps, OutMatcher(o, Pop));
    OutInboxIs(steps, o);
  }

  /** Publishing the reply names the tunnel as this call's, and the call returns unless it saw an error. */
  lemma PublishExactly(steps: seq<Step>, o: OutCall, t: TunnelId, seen: bool)
    requires ValidRun(steps + [OutMatcher(o, PublishReply(t, seen))])
    ensures ValidRun(steps) && o in After(steps).outs && After(steps).outs[o].phase.Got?
    ensures var s, more := After(steps), After(steps + [OutMatcher(o, PublishReply(t, seen))]);
            && more.published == s.published[t := o] && o in more.outs
            && more.outs[o].phase ==
                 if seen then Replied(s.outs[o].phase.ann, s.outs[o].phase.data, t) else OutFailed(MatcherFault)
  {
    RunSnoc(steps, OutMatcher(o, PublishReply(t, seen)));
  }
}
