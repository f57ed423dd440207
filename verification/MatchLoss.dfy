/** A run of the match protocol that loses a stream: two matched pairs of one provider, and the second
    stream arrives before the first waiter has looked into the slot. */
module MatchLoss {
  import opened Prelude
  import opened Ids
  import opened MatchProtocol
  import opened MatchMailbox

  lemma Extended(steps: seq<Step>, step: Step) returns (more: seq<Step>)
    requires ValidRun(steps) && Enabled(After(steps), step)
    ensures more == steps + [step] && ValidRun(more) && After(more) == Next(After(steps), step)
  {
    more := steps + [step];
    assert more[..|steps|] == steps;
  }

  /** An OUT call has set its key and published it. */
  function OutReady(outId: OutId): OutState {
    OutState(outId, Waiting, [], Sleeping, None, None, false)
  }

  lemma OutStarts(steps: seq<Step>, o: OutCall, outId: OutId) returns (more: seq<Step>)
    requires ValidRun(steps) && o !in After(steps).outs
    ensures ValidRun(more)
    ensures After(more) == SetOut(After(steps), o, OutReady(outId).(announcer := Setting))
  {
    more := Extended(steps, OutSubscribe(o, outId));
    more := Extended(more, OutAnnouncer(o, TakeMutex));
    assert After(more).outs == After(steps).outs[o := OutReady(outId).(announcer := Setting)];
  }

  lemma OutComesUp(steps: seq<Step>, o: OutCall, outId: OutId) returns (more: seq<Step>)
    requires ValidRun(steps) && o !in After(steps).outs
    ensures ValidRun(more) && After(more) == SetOut(SetOutKey(After(steps), outId), o, OutReady(outId))
  {
    more := OutStarts(steps, o, outId);
    more := Extended(more, OutAnnouncer(o, SetKey));
    more := Extended(more, OutAnnouncer(o, PublishKey));
    assert After(more).outs == After(steps).outs[o := OutReady(outId)];
  }

  /** An IN call has found its OUT active and stored its data. */
  lemma InFindsActive(steps: seq<Step>, k: MatchKey, from: InId, outId: OutId, data: InData) returns (more: seq<Step>)
    requires ValidRun(steps) && k !in After(steps).ins && OutKeyLive(After(steps), outId)
    ensures ValidRun(more)
    ensures After(more) == SetIn(After(steps), k, InCall(from, outId, data, Active, [], None))
  {
    more := Extended(steps, In(k, Subscribe(from, outId, data)));
    more := Extended(more, In(k, Check));
    assert After(more).ins == After(steps).ins[k := InCall(from, outId, data, Active, [], None)];
  }

  lemma StoredStep(s: State, k: MatchKey, from: InId, outId: OutId, data: InData)
    requires k !in s.stored
    ensures var announcing := InCall(from, outId, data, Announcing, [], None);
            var t := SetIn(s, k, InCall(from, outId, data, Active, [], None));
            InEnabled(t, k, StoreData) && InNext(t, k, StoreData) == SetIn(Store(s, k, data), k, announcing)
  {
    var announcing := InCall(from, outId, data, Announcing, [], None);
    assert s.ins[k := InCall(from, outId, data, Active, [], None)][k := announcing] == s.ins[k := announcing];
  }

  lemma InComesUp(steps: seq<Step>, k: MatchKey, from: InId, outId: OutId, data: InData) returns (more: seq<Step>)
    requires ValidRun(steps) && k !in After(steps).ins && k !in After(steps).stored && OutKeyLive(After(steps), outId)
    ensures ValidRun(more)
    ensures After(more) == SetIn(Store(After(steps), k, data), k, InCall(from, outId, data, Announcing, [], None))
  {
    StoredStep(After(steps), k, from, outId, data);
    more := InFindsActive(steps, k, from, outId, data);
    more := Extended(more, In(k, StoreData));
  }

  /** Its announcement reaches the one call of its OUT. */
  lemma InAnnounces(steps: seq<Step>, k: MatchKey, o: OutCall) returns (more: seq<Step>)
    requires ValidRun(steps) && k in After(steps).ins && After(steps).ins[k].phase.Announcing?
    requires o in After(steps).outs && After(steps).outs[o] == OutReady(After(steps).ins[k].outId)
    requires forall p :: p in After(steps).outs && p != o ==> After(steps).outs[p].outId != After(steps).ins[k].outId
    ensures ValidRun(more)
    ensures var s := After(steps);
            After(more) == s.(outs := s.outs[o := s.outs[o].(inbox := [Announcement(s.ins[k].from, k)])])
  {
    var s := After(steps);
    more := Extended(steps, In(k, Announce));
    var ann := Announcement(s.ins[k].from, k);
    assert s.outs[o].inbox + [ann] == [ann];
    assert After(more).outs == s.outs[o := s.outs[o].(inbox := [Announcement(s.ins[k].from, k)])];
  }

  /** The OUT call takes the announcement and the match key's lock. */
  lemma OutLocks(steps: seq<Step>, o: OutCall, ann: Announcement) returns (more: seq<Step>)
    requires ValidRun(steps) && o in After(steps).outs && ann.key !in After(steps).locks
    requires After(steps).outs[o] == OutReady(After(steps).outs[o].outId).(inbox := [ann])
    ensures ValidRun(more)
    ensures var s := After(steps);
            After(more) == s.(
              outs := s.outs[o :=
                OutState(s.outs[o].outId, Locked(ann), [], Sleeping, Some(Lock(ann.key, s.now)), None, false)],
              locks := s.locks[ann.key := s.now + MATCH_TIMEOUT_MS])
  {
    var s := After(steps);
    assert s.outs[o].inbox[1..] == [];
    more := Extended(steps, OutMatcher(o, Pop));
    more := Extended(more, OutMatcher(o, LockMutex));
    more := Extended(more, OutMatcher(o, TryLock));
    assert After(more).outs
        == s.outs[o := OutState(s.outs[o].outId, Locked(ann), [], Sleeping, Some(Lock(ann.key, s.now)), None, false)];
  }

  function RepliedTo(out: OutState, data: InData, tunnel: TunnelId): OutState
    requires out.phase.Locked?
  {
    out.(phase := Replied(out.phase.ann, data, tunnel), made := Some(Made(out.phase.ann, data, tunnel)))
  }

  /** It reads the IN data and replies. */
  lemma OutAnswers(steps: seq<Step>, o: OutCall, k: MatchKey, tunnel: TunnelId) returns (more: seq<Step>)
    requires ValidRun(steps) && o in After(steps).outs && After(steps).outs[o].phase.Locked?
    requires After(steps).outs[o].phase.ann.key == k && StoredLive(After(steps), k) && tunnel !in After(steps).published
    requires k in After(steps).ins && After(steps).ins[k].phase.Announcing? && After(steps).ins[k].inbox == []
    ensures ValidRun(more)
    ensures var s := After(steps);
            After(more) == s.(
              outs := s.outs[o := RepliedTo(s.outs[o], s.stored[k].data, tunnel)],
              published := s.published[tunnel := o],
              ins := s.ins[k := s.ins[k].(inbox := [Reply(s.outs[o].outId, tunnel)])])
  {
    var s := After(steps);
    var reply := Reply(s.outs[o].outId, tunnel);
    more := Extended(steps, OutMatcher(o, GetData));
    more := Extended(more, OutMatcher(o, PublishReply(tunnel, true)));
    assert After(more).outs == s.outs[o := RepliedTo(s.outs[o], s.stored[k].data, tunnel)];
    assert s.ins[k].inbox + [reply] == [reply];
    assert After(more).ins == s.ins[k := s.ins[k].(inbox := [reply])];
  }

  /** And the IN call returns. */
  lemma OutReplies(steps: seq<Step>, o: OutCall, k: MatchKey, tunnel: TunnelId) returns (more: seq<Step>)
    requires ValidRun(steps) && o in After(steps).outs && After(steps).outs[o].phase.Locked?
    requires After(steps).outs[o].phase.ann.key == k && StoredLive(After(steps), k) && tunnel !in After(steps).published
    requires k in After(steps).ins && After(steps).ins[k].phase.Announcing? && After(steps).ins[k].inbox == []
    ensures ValidRun(more)
    ensures var s := After(steps);
            var reply := Reply(s.outs[o].outId, tunnel);
            After(more) == s.(
              outs := s.outs[o := RepliedTo(s.outs[o], s.stored[k].data, tunnel)],
              published := s.published[tunnel := o],
              ins := s.ins[k := s.ins[k].(phase := Matched(reply), inbox := [reply], returned := Some(reply))])
  {
    var s := After(steps);
    var reply := Reply(s.outs[o].outId, tunnel);
    more := OutAnswers(steps, o, k, tunnel);
    more := Extended(more, In(k, Receive));
    assert After(more).ins == s.ins[k := s.ins[k].(phase := Matched(reply), inbox := [reply], returned := Some(reply))];
  }

  /** Nothing goes by `n` yet: neither match key, nor OUT call, nor tunnel id; and no OUT by `outId`. */
  ghost predicate Unused(s: State, n: nat, outId: OutId) {
    && n !in s.ins && n !in s.stored && n !in s.locks && n !in s.outs && n !in s.published
    && forall p :: p in s.outs ==> s.outs[p].outId != outId
  }

  /** IN call `n` and OUT call `n` are matched as tunnel `n`. */
  ghost predicate MatchedAs(s: State, n: nat, provider: Provider) {
    && n in s.ins && s.ins[n].phase.Matched? && s.ins[n].phase.reply.tunnelId == n && s.ins[n].data.provider == provider
    && n in s.outs && s.outs[n].phase.Replied? && !s.outs[n].connected
    && s.outs[n].phase.tunnelId == n && s.outs[n].phase.data.provider == provider
  }

  /** Two calls come up, and the announcement of one reaches the other. */
  function AnnouncedUp(s: State, n: nat, outId: OutId, data: InData): State {
    s.(outs := s.outs[n := OutReady(outId).(inbox := [Announcement(0, n)])],
       outKeys := s.outKeys[outId := s.now + MATCH_TIMEOUT_MS],
       ins := s.ins[n := InCall(0, outId, data, Announcing, [], None)],
       stored := s.stored[n := Stored(data, s.now + MATCH_IN_DATA_EXPIRATION_MS)])
  }

  lemma AnnouncedUpParts(s: State, n: nat, outId: OutId, data: InData)
    ensures var up := SetOut(SetOutKey(s, outId), n, OutReady(outId));
            var t := SetIn(Store(up, n, data), n, InCall(0, outId, data, Announcing, [], None));
            var u := t.(outs := t.outs[n := t.outs[n].(inbox := [Announcement(t.ins[n].from, n)])]);
            AnnouncedUp(s, n, outId, data) == u
  {
    assert s.outs[n := OutReady(outId)][n := OutReady(outId).(inbox := [Announcement(0, n)])]
        == s.outs[n := OutReady(outId).(inbox := [Announcement(0, n)])];
  }

  lemma Announced(steps: seq<Step>, n: nat, outId: OutId, data: InData) returns (more: seq<Step>)
    requires ValidRun(steps) && Unused(After(steps), n, outId)
    ensures ValidRun(more) && After(more) == AnnouncedUp(After(steps), n, outId, data)
  {
    AnnouncedUpParts(After(steps), n, outId, data);
    more := OutComesUp(steps, n, outId);
    more := InComesUp(more, n, 0, outId, data);
    more := InAnnounces(more, n, n);
  }

  /** The OUT call locks the match key. */
  function LockedUp(s: State, n: nat, outId: OutId, data: InData): State {
    var t := AnnouncedUp(s, n, outId, data);
    var locked := OutState(outId, Locked(Announcement(0, n)), [], Sleeping, Some(Lock(n, s.now)), None, false);
    t.(outs := s.outs[n := locked],
       locks := s.locks[n := s.now + MATCH_TIMEOUT_MS])
  }

  /** And replies to it with tunnel `n`. */
  function MatchedUp(s: State, n: nat, outId: OutId, data: InData): State {
    var reply := Reply(outId, n);
    var t := LockedUp(s, n, outId, data);
    t.(outs := s.outs[n := RepliedTo(t.outs[n], data, n)],
       published := s.published[n := n],
       ins := s.ins[n := InCall(0, outId, data, Matched(reply), [reply], Some(reply))])
  }

  lemma LockedUpParts(s: State, n: nat, outId: OutId, data: InData)
    ensures var t := AnnouncedUp(s, n, outId, data);
            var out := OutState(outId, Locked(Announcement(0, n)), [], Sleeping, Some(Lock(n, t.now)), None, false);
            var u := t.(outs := t.outs[n := out], locks := t.locks[n := t.now + MATCH_TIMEOUT_MS]);
            LockedUp(s, n, outId, data) == u
  {
    var t := AnnouncedUp(s, n, outId, data);
    assert LockedUp(s, n, outId, data).outs == t.outs[n := LockedUp(s, n, outId, data).outs[n]];
  }

  lemma LockUp(steps: seq<Step>, n: nat, outId: OutId, data: InData) returns (more: seq<Step>)
    requires ValidRun(steps) && Unused(After(steps), n, outId)
    ensures ValidRun(more) && After(more) == LockedUp(After(steps), n, outId, data)
  {
    LockedUpParts(After(steps), n, outId, data);
    more := Announced(steps, n, outId, data);
    more := OutLocks(more, n, Announcement(0, n));
  }

  lemma MatchedUpParts(s: State, n: nat, outId: OutId, data: InData)
    ensures var t := LockedUp(s, n, outId, data);
            var reply := Reply(outId, n);
            MatchedUp(s, n, outId, data) == t.(
              outs := t.outs[n := RepliedTo(t.outs[n], t.stored[n].data, n)],
              published := t.published[n := n],
              ins := t.ins[n := t.ins[n].(phase := Matched(reply), inbox := [reply], returned := Some(reply))])
  {
    var t, u := LockedUp(s, n, outId, data), MatchedUp(s, n, outId, data);
    assert u.outs == t.outs[n := RepliedTo(t.outs[n], t.stored[n].data, n)];
    assert u.ins == t.ins[n := u.ins[n]];
  }

  lemma PairUp(steps: seq<Step>, n: nat, outId: OutId, provider: Provider) returns (more: seq<Step>)
    requires ValidRun(steps) && Unused(After(steps), n, outId)
    ensures ValidRun(more) && After(more) == MatchedUp(After(steps), n, outId, InData(provider, ""))
  {
    MatchedUpParts(After(steps), n, outId, InData(provider, ""));
    more := LockUp(steps, n, outId, InData(provider, ""));
    more := OutReplies(more, n, n, n);
  }

  const PROVIDER := 0

  /** The first pair is matched, and then the second; no stream has arrived yet. */
  lemma TwoPairs() returns (steps: seq<Step>)
    ensures ValidRun(steps) && MatchedAs(After(steps), 1, PROVIDER) && MatchedAs(After(steps), 2, PROVIDER)
  {
    steps := [];
    assert Unused(After(steps), 1, "first");
    steps := PairUp(steps, 1, "first", PROVIDER);
    assert Unused(After(steps), 2, "second");
    steps := PairUp(steps, 2, "second", PROVIDER);
  }

  /** The stream of the first pair reaches the slot, the stream of the second takes its place, and the
      first one is lost for good, while its IN call still waits for it. */
  lemma SecondStreamDisplacesFirst() returns (steps: seq<Step>)
    ensures ValidRun(steps) && Lost(After(steps), 1)
    ensures var s := After(steps);
            && 1 in s.ins && s.ins[1].phase.Matched? && 1 in s.outs && s.outs[1].phase.Replied?
            && s.ins[1].phase.reply.tunnelId == s.outs[1].phase.tunnelId
  {
    var matched := TwoPairs();
    var waiting := Extended(matched, StreamArrives(1));
    steps := Extended(waiting, StreamArrives(2));
    assert steps[..|waiting|] == waiting && steps[|waiting|] == StreamArrives(2);
    MailboxDelivers(steps, |waiting|, 1);
  }

  /** An announcement is queued at every call of its OUT that still runs, and at no other. */
  lemma AnnouncementReaches(steps: seq<Step>, k: MatchKey, o: OutCall)
    requires ValidRun(steps) && Enabled(After(steps), In(k, Announce)) && o in After(steps).outs
    ensures var s, more := After(steps), steps + [In(k, Announce)];
            && ValidRun(more) && o in After(more).outs
            && After(more).outs[o].inbox == s.outs[o].inbox
                 + if s.outs[o].outId == s.ins[k].outId && !s.outs[o].phase.Replied? && !s.outs[o].phase.OutFailed?
                   then [Announcement(s.ins[k].from, k)] else []
  {
    var more := Extended(steps, In(k, Announce));
  }

  /** Whatever has run so far, a new OUT and a new IN call can be matched and joined by a stream, in no time:
      the OUT sets and publishes its key, the IN call finds it, stores its data and announces itself, and the
      OUT call locks, reads and replies. */
  lemma MatchCompletes(steps: seq<Step>, n: nat, outId: OutId, provider: Provider) returns (more: seq<Step>)
    requires ValidRun(steps) && Unused(After(steps), n, outId)
    ensures ValidRun(more) && After(more).now == After(steps).now
    ensures var s, reply := After(more), Reply(outId, n);
            && n in s.ins && s.ins[n].phase == Established(reply, n) && s.ins[n].returned == Some(reply)
            && n in s.outs && s.outs[n].phase == Replied(Announcement(0, n), InData(provider, ""), n)
  {
    more := PairUp(steps, n, outId, provider);
    more := Extended(more, StreamArrives(n));
    more := Extended(more, In(n, TakeStream));
  }
}
