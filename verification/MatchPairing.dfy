/** What every reachable state of the match protocol satisfies, and what it means for the two ends. */
module MatchPairing {
  import opened Prelude
  import opened Ids
  import opened MatchProtocol

  // ---- The invariant, call by call ----

  ghost predicate ReplyOk(s: State, k: MatchKey, r: Reply) {
    && r.tunnelId in s.published
    && s.published[r.tunnelId] in s.outs
    && var out := s.outs[s.published[r.tunnelId]];
       out.made.Some? && out.made.value.ann.key == k && out.made.value.tunnelId == r.tunnelId && out.outId == r.outId
  }

  ghost predicate InOk(s: State, k: MatchKey)
    requires k in s.ins
  {
    var i := s.ins[k];
    && (forall n :: 0 <= n < |i.inbox| ==> ReplyOk(s, k, i.inbox[n]))
    && (i.returned.Some? ==> ReplyOk(s, k, i.returned.value))
    && (i.phase.Matched? || i.phase.Established? ==> i.returned == Some(i.phase.reply))
    && (i.phase.Established? ==>
          s.published[i.phase.reply.tunnelId] == i.phase.stream && s.outs[i.phase.stream].connected)
  }

  ghost predicate AnnouncementOk(s: State, outId: OutId, ann: Announcement) {
    ann.key in s.ins && s.ins[ann.key].from == ann.from && s.ins[ann.key].outId == outId
  }

  /** The reply call `o` published is to a call of its OUT, from that call's data, under that call's
      lock, and no other call made its tunnel id. */
  ghost predicate MadeOk(s: State, o: OutCall, made: Made)
    requires o in s.outs
  {
    && AnnouncementOk(s, s.outs[o].outId, made.ann) && made.data == s.ins[made.ann.key].data
    && s.outs[o].taken.Some? && s.outs[o].taken.value.key == made.ann.key
    && made.tunnelId in s.published && s.published[made.tunnelId] == o
  }

  ghost predicate OutOk(s: State, o: OutCall)
    requires o in s.outs
  {
    var out := s.outs[o];
    && (forall n :: 0 <= n < |out.inbox| ==> AnnouncementOk(s, out.outId, out.inbox[n]))
    && (out.phase.Popped? || MatcherHolds(out) ==> AnnouncementOk(s, out.outId, out.phase.ann))
    && (out.phase.Got? ==> out.phase.data == s.ins[out.phase.ann.key].data)
    && (out.phase.Locked? || out.phase.Got? ==> out.taken.Some? && out.taken.value.key == out.phase.ann.key)
    && (out.made.Some? ==> MadeOk(s, o, out.made.value))
    && (out.phase.Replied? ==> out.made == Some(Made(out.phase.ann, out.phase.data, out.phase.tunnelId)))
    && (out.made.Some? ==> out.phase.Replied? || out.phase == OutFailed(MatcherFault))
    && (out.phase.Waiting? || out.phase.Popped? || out.phase.Locking? ==> out.taken.None?)
    && (out.phase.OutFailed? && out.phase.cause in {LeaseExpired, AnnouncerFault} ==> out.taken.None?)
    && !(Running(out) && MatcherHolds(out) && AnnouncerHolds(out))
    && (out.connected ==> out.phase.Replied?)
    && (out.taken.Some? ==>
          && out.taken.value.key in s.locks
          && out.taken.value.at <= s.now
          && out.taken.value.at + MATCH_TIMEOUT_MS <= s.locks[out.taken.value.key])
  }

  ghost predicate StoredOk(s: State) {
    forall k :: k in s.stored ==> k in s.ins && s.stored[k].data == s.ins[k].data
  }

  /** Locks on the same key are at least five seconds apart. */
  predicate Apart(a: Option<Lock>, b: Option<Lock>) {
    a.Some? && b.Some? && a.value.key == b.value.key ==>
      a.value.at + MATCH_TIMEOUT_MS <= b.value.at || b.value.at + MATCH_TIMEOUT_MS <= a.value.at
  }

  ghost predicate LocksApart(s: State) {
    forall o, p :: o in s.outs && p in s.outs && o != p ==> Apart(s.outs[o].taken, s.outs[p].taken)
  }

  ghost predicate SlotsOk(s: State) {
    forall p :: p in s.slots ==>
      && s.slots[p].stream in s.outs
      && var out := s.outs[s.slots[p].stream];
         out.phase.Replied? && out.connected
         && out.phase.tunnelId == s.slots[p].tunnelId && out.phase.data.provider == p
  }

  ghost predicate PublishedOk(s: State) {
    forall t :: t in s.published ==> s.published[t] in s.outs
  }

  ghost predicate Inv(s: State) {
    && (forall k :: k in s.ins ==> InOk(s, k))
    && (forall o :: o in s.outs ==> OutOk(s, o))
    && StoredOk(s) && LocksApart(s) && SlotsOk(s) && PublishedOk(s)
  }

  // ---- What steps never take back ----

  /** Calls keep their parameters; a reply published stays published; tunnel ids keep their maker;
      locks are only pushed forward. */
  ghost predicate Grows(s: State, t: State) {
    && s.now <= t.now
    && (forall k :: k in s.ins ==>
          k in t.ins && t.ins[k].from == s.ins[k].from
          && t.ins[k].outId == s.ins[k].outId && t.ins[k].data == s.ins[k].data)
    && (forall o :: o in s.outs ==>
          && o in t.outs && t.outs[o].outId == s.outs[o].outId
          && (s.outs[o].made.Some? ==> t.outs[o].made == s.outs[o].made)
          && (s.outs[o].connected ==> t.outs[o].connected))
    && (forall n :: n in s.published ==> n in t.published && t.published[n] == s.published[n])
    && (forall k :: k in s.locks ==> k in t.locks && (s.locks[k] <= t.locks[k]))
  }

  lemma ReplyGrows(s: State, t: State, k: MatchKey, r: Reply)
    requires Grows(s, t) && ReplyOk(s, k, r)
    ensures ReplyOk(t, k, r)
  {
  }

  lemma InGrows(s: State, t: State, k: MatchKey)
    requires Grows(s, t) && k in s.ins && InOk(s, k)
    requires t.ins[k] == s.ins[k]
    ensures InOk(t, k)
  {
  }

  lemma OutGrows(s: State, t: State, o: OutCall)
    requires Grows(s, t) && o in s.outs && OutOk(s, o)
    requires t.outs[o] == s.outs[o]
    ensures OutOk(t, o)
  {
  }

  /** A step that changes nothing but IN call `k`, the stored data and the slots. */
  lemma InStepKeeps(s: State, t: State, k: MatchKey)
    requires Inv(s) && Grows(s, t) && t.outs == s.outs && k in t.ins && InOk(t, k)
    requires t.ins.Keys == s.ins.Keys + {k} && forall j :: j in s.ins && j != k ==> t.ins[j] == s.ins[j]
    requires t.published == s.published && StoredOk(t) && SlotsOk(t)
    ensures Inv(t)
  {
    forall j | j in t.ins
      ensures InOk(t, j)
    {
      if j != k { InGrows(s, t, j); }
    }
    forall o | o in t.outs
      ensures OutOk(t, o)
    {
      OutGrows(s, t, o);
    }
  }

  /** A step that changes nothing but OUT call `o`, the locks and the slots. */
  lemma OutStepKeeps(s: State, t: State, o: OutCall)
    requires Inv(s) && Grows(s, t) && t.ins == s.ins && o in t.outs && OutOk(t, o)
    requires t.outs.Keys == s.outs.Keys + {o} && forall p :: p in s.outs && p != o ==> t.outs[p] == s.outs[p]
    requires PublishedOk(t) && t.stored == s.stored && SlotsOk(t) && LocksApart(t)
    ensures Inv(t)
  {
    forall j | j in t.ins
      ensures InOk(t, j)
    {
      InGrows(s, t, j);
    }
    forall p | p in t.outs
      ensures OutOk(t, p)
    {
      if p != o { OutGrows(s, t, p); }
    }
  }

  // ---- IN steps ----

  lemma SubscribeIn(s: State, k: MatchKey, from: InId, outId: OutId, data: InData)
    requires Inv(s) && k !in s.ins
    ensures Inv(SetIn(s, k, InCall(from, outId, data, Subscribed, [], None)))
  {
    InStepKeeps(s, SetIn(s, k, InCall(from, outId, data, Subscribed, [], None)), k);
  }

  lemma ReturnedGrows(s: State, t: State, k: MatchKey)
    requires Grows(s, t) && k in s.ins && InOk(s, k) && s.ins[k].returned.Some?
    ensures ReplyOk(t, k, s.ins[k].returned.value)
  {
    ReplyGrows(s, t, k, s.ins[k].returned.value);
  }

  lemma InPhaseStep(s: State, k: MatchKey, phase: InPhase)
    requires Inv(s) && k in s.ins && !phase.Established? && !phase.Matched?
    ensures Inv(SetInPhase(s, k, phase))
  {
    var t := SetInPhase(s, k, phase);
    assert InOk(s, k);
    assert Grows(s, t);
    forall n | 0 <= n < |s.ins[k].inbox|
      ensures ReplyOk(t, k, s.ins[k].inbox[n])
    {
      ReplyGrows(s, t, k, s.ins[k].inbox[n]);
    }
    if s.ins[k].returned.Some? {
      ReturnedGrows(s, t, k);
    }
    InStepKeeps(s, t, k);
  }

  lemma Received(s: State, k: MatchKey)
    requires Inv(s) && k in s.ins && s.ins[k].inbox != []
    ensures Inv(ReceiveStep(s, k))
  {
    var t := ReceiveStep(s, k);
    assert InOk(s, k);
    assert Grows(s, t);
    forall n | 0 <= n < |s.ins[k].inbox|
      ensures ReplyOk(t, k, s.ins[k].inbox[n])
    {
      ReplyGrows(s, t, k, s.ins[k].inbox[n]);
    }
    InStepKeeps(s, t, k);
  }

  lemma ReplyLost(s: State, k: MatchKey)
    requires Inv(s) && k in s.ins && Listening(s.ins[k]) && s.ins[k].inbox != []
    ensures Inv(SetIn(s, k, s.ins[k].(inbox := s.ins[k].inbox[1..])))
  {
    var t := SetIn(s, k, s.ins[k].(inbox := s.ins[k].inbox[1..]));
    assert InOk(s, k);
    assert Grows(s, t);
    forall n | 0 <= n < |t.ins[k].inbox|
      ensures ReplyOk(t, k, t.ins[k].inbox[n])
    {
      ReplyGrows(s, t, k, s.ins[k].inbox[n + 1]);
    }
    if s.ins[k].returned.Some? {
      ReturnedGrows(s, t, k);
    }
    InStepKeeps(s, t, k);
  }

  /** The invariant says nothing of OUT keys, and of stored data only whose it is. */
  lemma StoreKeeps(s: State, k: MatchKey, data: InData)
    requires Inv(s) && k in s.ins && data == s.ins[k].data
    ensures Inv(Store(s, k, data))
  {
  }

  lemma OutKeysKeep(s: State, outId: OutId)
    requires Inv(s)
    ensures Inv(SetOutKey(s, outId))
  {
    EqualParts(s, SetOutKey(s, outId));
  }

  lemma EqualParts(s: State, t: State)
    requires Inv(s) && s.now <= t.now
    requires t.ins == s.ins && t.outs == s.outs && t.published == s.published && t.locks == s.locks
    requires t.stored == s.stored && t.slots == s.slots
    ensures Inv(t)
  {
    forall j | j in t.ins
      ensures InOk(t, j)
    {
      InGrows(s, t, j);
    }
    forall p | p in t.outs
      ensures OutOk(t, p)
    {
      OutGrows(s, t, p);
    }
  }

  lemma EmptySlot(s: State, p: Provider)
    requires Inv(s)
    ensures Inv(s.(slots := s.slots - {p}))
  {
    var t := s.(slots := s.slots - {p});
    forall j | j in t.ins
      ensures InOk(t, j)
    {
      InGrows(s, t, j);
    }
    forall q | q in t.outs
      ensures OutOk(t, q)
    {
      OutGrows(s, t, q);
    }
  }

  lemma Establish(s: State, k: MatchKey, stream: OutCall)
    requires Inv(s) && k in s.ins && s.ins[k].phase.Matched?
    requires stream in s.outs && s.outs[stream].connected
    requires s.ins[k].phase.reply.tunnelId in s.published && s.published[s.ins[k].phase.reply.tunnelId] == stream
    ensures Inv(SetInPhase(s, k, Established(s.ins[k].phase.reply, stream)))
  {
    var t := SetInPhase(s, k, Established(s.ins[k].phase.reply, stream));
    assert InOk(s, k);
    assert Grows(s, t);
    forall n | 0 <= n < |s.ins[k].inbox|
      ensures ReplyOk(t, k, s.ins[k].inbox[n])
    {
      ReplyGrows(s, t, k, s.ins[k].inbox[n]);
    }
    ReturnedGrows(s, t, k);
    InStepKeeps(s, t, k);
  }

  /** The stream in a slot was opened by the call that made its tunnel id. */
  lemma SlotStream(s: State, p: Provider)
    requires Inv(s) && p in s.slots
    ensures var a := s.slots[p];
            && a.stream in s.outs && s.outs[a.stream].connected
            && a.tunnelId in s.published && s.published[a.tunnelId] == a.stream
  {
  }

  lemma StreamTaken(s: State, k: MatchKey)
    requires Inv(s) && k in s.ins && s.ins[k].phase.Matched? && s.ins[k].data.provider in s.slots
    ensures Inv(TakeStreamStep(s, k))
  {
    var p := s.ins[k].data.provider;
    SlotStream(s, p);
    EmptySlot(s, p);
    if s.slots[p].tunnelId == s.ins[k].phase.reply.tunnelId {
      Establish(s.(slots := s.slots - {p}), k, s.slots[p].stream);
    }
  }

  lemma AnnouncedOut(s: State, k: MatchKey, p: OutCall)
    requires k in s.ins && p in s.outs && OutOk(s, p)
    ensures OutOk(AnnounceStep(s, k), p)
  {
  }

  lemma AnnounceGrows(s: State, k: MatchKey)
    requires k in s.ins
    ensures Grows(s, AnnounceStep(s, k))
  {
  }

  lemma AnnounceSlots(s: State, k: MatchKey)
    requires k in s.ins && SlotsOk(s) && LocksApart(s)
    ensures SlotsOk(AnnounceStep(s, k)) && LocksApart(AnnounceStep(s, k))
  {
  }

  lemma AnnouncedAll(s: State, k: MatchKey)
    requires Inv(s) && k in s.ins
    ensures Inv(AnnounceStep(s, k))
  {
    var t := AnnounceStep(s, k);
    AnnounceGrows(s, k);
    AnnounceSlots(s, k);
    forall j | j in t.ins
      ensures InOk(t, j)
    {
      InGrows(s, t, j);
    }
    forall p | p in t.outs
      ensures OutOk(t, p)
    {
      AnnouncedOut(s, k, p);
    }
  }

  // ---- OUT steps ----

  lemma SameTaken(s: State, t: State)
    requires LocksApart(s)
    requires forall p :: p in t.outs && t.outs[p].taken.Some? ==> p in s.outs && s.outs[p].taken == t.outs[p].taken
    ensures LocksApart(t)
  {
  }

  lemma LocalGrows(s: State, o: OutCall, out: OutState)
    requires o in s.outs ==> s.outs[o].made.None? && !s.outs[o].connected && out.outId == s.outs[o].outId
    ensures Grows(s, SetOut(s, o, out))
  {
  }

  /** A running call moves on without touching its lock. */
  lemma OutLocalStep(s: State, o: OutCall, out: OutState)
    requires Inv(s) && (o in s.outs ==> Running(s.outs[o]) && out.outId == s.outs[o].outId)
    requires out.taken == (if o in s.outs then s.outs[o].taken else None)
    requires !out.phase.Replied? && !out.connected
    requires OutOk(SetOut(s, o, out), o)
    ensures Inv(SetOut(s, o, out))
  {
    var t := SetOut(s, o, out);
    assert o in s.outs ==> OutOk(s, o);
    LocalGrows(s, o, out);
    SameTaken(s, t);
    SlotsUntouched(s, t, o);
    OutStepKeeps(s, t, o);
  }

  lemma SlotsUntouched(s: State, t: State, o: OutCall)
    requires SlotsOk(s) && t.slots == s.slots
    requires forall p :: p in s.outs && p != o ==> p in t.outs && t.outs[p] == s.outs[p]
    requires o in s.outs ==> Running(s.outs[o])
    ensures SlotsOk(t)
  {
  }

  lemma FailStep(s: State, o: OutCall, cause: Cause)
    requires Inv(s) && o in s.outs && Running(s.outs[o])
    requires cause in {LeaseExpired, AnnouncerFault} ==> AnnouncerHolds(s.outs[o])
    ensures Inv(SetOutPhase(s, o, OutFailed(cause)))
  {
    assert OutOk(s, o);
    OutLocalStep(s, o, s.outs[o].(phase := OutFailed(cause)));
  }

  lemma MutexStep(s: State, o: OutCall)
    requires Inv(s) && o in s.outs && s.outs[o].phase.Popped? && MutexFree(s.outs[o])
    ensures Inv(SetOutPhase(s, o, Locking(s.outs[o].phase.ann)))
  {
    assert OutOk(s, o);
    OutLocalStep(s, o, s.outs[o].(phase := Locking(s.outs[o].phase.ann)));
  }

  lemma MissedStep(s: State, o: OutCall)
    requires Inv(s) && o in s.outs && s.outs[o].phase.Locking?
    ensures Inv(SetOutPhase(s, o, Waiting))
  {
    assert OutOk(s, o);
    OutLocalStep(s, o, s.outs[o].(phase := Waiting));
  }

  lemma GotStep(s: State, o: OutCall, data: InData)
    requires Inv(s) && o in s.outs && s.outs[o].phase.Locked?
    requires s.outs[o].phase.ann.key in s.ins && data == s.ins[s.outs[o].phase.ann.key].data
    ensures Inv(SetOutPhase(s, o, Got(s.outs[o].phase.ann, data)))
  {
    assert OutOk(s, o);
    OutLocalStep(s, o, s.outs[o].(phase := Got(s.outs[o].phase.ann, data)));
  }

  lemma AnnouncerStep(s: State, o: OutCall, announcer: Announcer)
    requires Inv(s) && o in s.outs && Running(s.outs[o])
    requires AnnouncerHolds(s.outs[o]) || MutexFree(s.outs[o])
    ensures Inv(SetAnnouncer(s, o, announcer))
  {
    assert OutOk(s, o);
    OutLocalStep(s, o, s.outs[o].(announcer := announcer));
  }

  lemma PoppedOne(s: State, o: OutCall)
    requires Inv(s) && o in s.outs && s.outs[o].phase.Waiting? && s.outs[o].inbox != []
    ensures Inv(SetOut(s, o, s.outs[o].(phase := Popped(s.outs[o].inbox[0]), inbox := s.outs[o].inbox[1..])))
  {
    assert OutOk(s, o);
    var out := s.outs[o].(phase := Popped(s.outs[o].inbox[0]), inbox := s.outs[o].inbox[1..]);
    OutLocalStep(s, o, out);
  }

  lemma AnnouncementLost(s: State, o: OutCall)
    requires Inv(s) && o in s.outs && Running(s.outs[o]) && s.outs[o].inbox != []
    ensures Inv(SetOut(s, o, s.outs[o].(inbox := s.outs[o].inbox[1..])))
  {
    assert OutOk(s, o);
    OutLocalStep(s, o, s.outs[o].(inbox := s.outs[o].inbox[1..]));
  }

  lemma LockGrows(s: State, o: OutCall)
    requires o in s.outs && s.outs[o].phase.Locking? && !LockLive(s, s.outs[o].phase.ann.key)
    ensures Grows(s, LockStep(s, o))
  {
  }

  lemma LockedOutOk(s: State, o: OutCall)
    requires o in s.outs && s.outs[o].phase.Locking? && !LockLive(s, s.outs[o].phase.ann.key) && OutOk(s, o)
    ensures OutOk(LockStep(s, o), o)
  {
  }

  lemma LockedApart(s: State, o: OutCall)
    requires o in s.outs && s.outs[o].phase.Locking? && !LockLive(s, s.outs[o].phase.ann.key)
    requires LocksApart(s) && s.outs[o].taken.None?
    requires var key := s.outs[o].phase.ann.key;
             forall p :: p in s.outs && s.outs[p].taken.Some? && s.outs[p].taken.value.key == key ==>
               s.outs[p].taken.value.at + MATCH_TIMEOUT_MS <= s.now
    ensures LocksApart(LockStep(s, o))
  {
  }

  /** Taking a lock: the key's lock had run out, so every earlier taker is five seconds back. */
  lemma TakeLock(s: State, o: OutCall)
    requires Inv(s) && o in s.outs && s.outs[o].phase.Locking?
    ensures Inv(LockStep(s, o))
  {
    if LockLive(s, s.outs[o].phase.ann.key) {
      MissedStep(s, o);
    } else {
      LockTaken(s, o);
    }
  }

  lemma LockTaken(s: State, o: OutCall)
    requires Inv(s) && o in s.outs && s.outs[o].phase.Locking? && !LockLive(s, s.outs[o].phase.ann.key)
    ensures Inv(LockStep(s, o))
  {
    var t := LockStep(s, o);
    assert OutOk(s, o);
    EarlierTakers(s, s.outs[o].phase.ann.key);
    LockGrows(s, o);
    LockedOutOk(s, o);
    LockedApart(s, o);
    SlotsUntouched(s, t, o);
    OutStepKeeps(s, t, o);
  }

  lemma EarlierTakers(s: State, key: MatchKey)
    requires Inv(s) && !LockLive(s, key)
    ensures forall p :: p in s.outs && s.outs[p].taken.Some? && s.outs[p].taken.value.key == key ==>
              s.outs[p].taken.value.at + MATCH_TIMEOUT_MS <= s.now
  {
  }

  lemma DataGot(s: State, o: OutCall)
    requires Inv(s) && o in s.outs && s.outs[o].phase.Locked?
    ensures Inv(GetStep(s, o))
  {
    assert OutOk(s, o);
    var ann := s.outs[o].phase.ann;
    if StoredLive(s, ann.key) {
      GotStep(s, o, s.stored[ann.key].data);
    } else {
      FailStep(s, o, MatcherFault);
    }
  }

  lemma TunnelGrows(s: State, o: OutCall, tunnelId: TunnelId, seen: bool)
    requires o in s.outs && s.outs[o].phase.Got? && tunnelId !in s.published && OutOk(s, o)
    ensures Grows(s, MakeTunnel(s, o, tunnelId, seen))
  {
  }

  lemma RepliedOut(s: State, o: OutCall, tunnelId: TunnelId, seen: bool)
    requires o in s.outs && s.outs[o].phase.Got? && tunnelId !in s.published && OutOk(s, o)
    ensures OutOk(MakeTunnel(s, o, tunnelId, seen), o)
  {
  }

  lemma TunnelMade(s: State, o: OutCall, tunnelId: TunnelId, seen: bool)
    requires Inv(s) && o in s.outs && s.outs[o].phase.Got? && tunnelId !in s.published
    ensures Inv(MakeTunnel(s, o, tunnelId, seen))
  {
    var t := MakeTunnel(s, o, tunnelId, seen);
    assert OutOk(s, o);
    TunnelGrows(s, o, tunnelId, seen);
    RepliedOut(s, o, tunnelId, seen);
    SameTaken(s, t);
    SlotsUntouched(s, t, o);
    OutStepKeeps(s, t, o);
  }

  lemma QueueGrows(s: State, k: MatchKey, r: Reply)
    requires k in s.ins
    ensures Grows(s, SetIn(s, k, s.ins[k].(inbox := s.ins[k].inbox + [r])))
  {
  }

  lemma QueuedIn(s: State, k: MatchKey, r: Reply)
    requires k in s.ins && InOk(s, k) && ReplyOk(s, k, r)
    ensures InOk(SetIn(s, k, s.ins[k].(inbox := s.ins[k].inbox + [r])), k)
  {
  }

  lemma Queued(s: State, k: MatchKey, r: Reply)
    requires Inv(s) && k in s.ins && ReplyOk(s, k, r)
    ensures Inv(SetIn(s, k, s.ins[k].(inbox := s.ins[k].inbox + [r])))
  {
    QueueGrows(s, k, r);
    QueuedIn(s, k, r);
    InStepKeeps(s, SetIn(s, k, s.ins[k].(inbox := s.ins[k].inbox + [r])), k);
  }

  lemma Delivered(s: State, k: MatchKey, r: Reply)
    requires Inv(s) && (k in s.ins ==> ReplyOk(s, k, r))
    ensures Inv(Deliver(s, k, r))
  {
    if k in s.ins && Listening(s.ins[k]) {
      Queued(s, k, r);
    }
  }

  lemma ReplyPublished(s: State, o: OutCall, tunnelId: TunnelId, seen: bool)
    requires Inv(s) && o in s.outs && s.outs[o].phase.Got? && tunnelId !in s.published
    ensures Inv(PublishStep(s, o, tunnelId, seen))
  {
    TunnelMade(s, o, tunnelId, seen);
    Delivered(MakeTunnel(s, o, tunnelId, seen), s.outs[o].phase.ann.key, Reply(s.outs[o].outId, tunnelId));
  }

  lemma ArriveGrows(s: State, o: OutCall)
    requires o in s.outs && s.outs[o].phase.Replied?
    ensures Grows(s, ArriveStep(s, o))
  {
  }

  lemma ArrivedOk(s: State, o: OutCall)
    requires o in s.outs && s.outs[o].phase.Replied? && OutOk(s, o) && SlotsOk(s)
    ensures OutOk(ArriveStep(s, o), o) && SlotsOk(ArriveStep(s, o))
  {
  }

  lemma Arrive(s: State, o: OutCall)
    requires Inv(s) && o in s.outs && s.outs[o].phase.Replied?
    ensures Inv(ArriveStep(s, o))
  {
    var t := ArriveStep(s, o);
    ArriveGrows(s, o);
    ArrivedOk(s, o);
    SameTaken(s, t);
    OutStepKeeps(s, t, o);
  }

  // ---- Every step, every run ----

  lemma StoreInStep(s: State, k: MatchKey)
    requires Inv(s) && k in s.ins
    ensures Inv(StoreStep(s, k))
  {
    if StoredLive(s, k) {
      InPhaseStep(s, k, Announcing);
    } else {
      StoreKeeps(s, k, s.ins[k].data);
      InPhaseStep(Store(s, k, s.ins[k].data), k, Announcing);
    }
  }

  lemma RenewIn(s: State, k: MatchKey)
    requires Inv(s)
    ensures StoredLive(s, k) ==> Inv(Store(s, k, s.stored[k].data))
  {
    if StoredLive(s, k) {
      StoreKeeps(s, k, s.stored[k].data);
    }
  }

  lemma InNextKeeps(s: State, k: MatchKey, move: InMove)
    requires Inv(s) && InEnabled(s, k, move)
    ensures Inv(InNext(s, k, move))
  {
    match move {
      case Subscribe(from, outId, data) => SubscribeIn(s, k, from, outId, data);
      case Check => InPhaseStep(s, k, if OutKeyLive(s, s.ins[k].outId) then Active else Inactive);
      case StoreData => StoreInStep(s, k);
      case Announce => AnnouncedAll(s, k);
      case RenewData => RenewIn(s, k);
      case Receive => Received(s, k);
      case LoseReply => ReplyLost(s, k);
      case Fail => InPhaseStep(s, k, InFailed);
      case TakeStream => StreamTaken(s, k);
    }
  }

  lemma KeySet(s: State, o: OutCall, announcer: Announcer)
    requires Inv(s) && o in s.outs && Running(s.outs[o]) && (AnnouncerHolds(s.outs[o]) || MutexFree(s.outs[o]))
    ensures Inv(SetOutKey(SetAnnouncer(s, o, announcer), s.outs[o].outId))
  {
    AnnouncerStep(s, o, announcer);
    OutKeysKeep(SetAnnouncer(s, o, announcer), s.outs[o].outId);
  }

  lemma AnnouncerNextKeeps(s: State, o: OutCall, move: AnnouncerMove)
    requires Inv(s) && AnnouncerEnabled(s, o, move)
    ensures Inv(AnnouncerNext(s, o, move))
  {
    match move {
      case TakeMutex => AnnouncerStep(s, o, if s.outs[o].announcer.Starting? then Setting else Renewing);
      case SetKey => KeySet(s, o, Publishing);
      case PublishKey => AnnouncerStep(s, o, Sleeping);
      case RenewKey =>
        if OutKeyLive(s, s.outs[o].outId) {
          KeySet(s, o, Sleeping);
        } else {
          FailStep(s, o, LeaseExpired);
        }
      case AnnouncerFail => FailStep(s, o, AnnouncerFault);
    }
  }

  lemma MatcherNextKeeps(s: State, o: OutCall, move: MatcherMove)
    requires Inv(s) && MatcherEnabled(s, o, move)
    ensures Inv(MatcherNext(s, o, move))
  {
    match move {
      case Pop => PoppedOne(s, o);
      case LoseAnnouncement => AnnouncementLost(s, o);
      case LockMutex => MutexStep(s, o);
      case TryLock => TakeLock(s, o);
      case GetData => DataGot(s, o);
      case PublishReply(n, seen) => ReplyPublished(s, o, n, seen);
      case MatcherFail => FailStep(s, o, MatcherFault);
    }
  }

  lemma OutCallKeeps(s: State, o: OutCall, outId: OutId)
    requires Inv(s) && o !in s.outs
    ensures Inv(SetOut(s, o, OutState(outId, Waiting, [], Starting, None, None, false)))
  {
    OutLocalStep(s, o, OutState(outId, Waiting, [], Starting, None, None, false));
  }

  lemma TickKeeps(s: State, ms: nat)
    requires Inv(s)
    ensures Inv(s.(now := s.now + ms))
  {
    EqualParts(s, s.(now := s.now + ms));
  }

  lemma TaskStepKeeps(s: State, step: Step)
    requires Inv(s) && Enabled(s, step) && (step.In? || step.OutAnnouncer? || step.OutMatcher?)
    ensures Inv(Next(s, step))
  {
    if step.In? {
      InNextKeeps(s, step.key, step.inMove);
    } else if step.OutAnnouncer? {
      AnnouncerNextKeeps(s, step.out, step.announcerMove);
    } else {
      MatcherNextKeeps(s, step.out, step.matcherMove);
    }
  }

  lemma CallStepKeeps(s: State, step: Step)
    requires Inv(s) && Enabled(s, step) && (step.OutSubscribe? || step.OutCrash? || step.StreamArrives?)
    ensures Inv(Next(s, step))
  {
    if step.OutSubscribe? {
      OutCallKeeps(s, step.out, step.outId);
    } else if step.OutCrash? {
      FailStep(s, step.out, Crash);
    } else {
      Arrive(s, step.out);
    }
  }

  lemma TimeStepKeeps(s: State, step: Step)
    requires Inv(s) && Enabled(s, step) && step.Tick?
    ensures Inv(Next(s, step))
  {
    TickKeeps(s, step.ms);
  }

  lemma StepKeepsInv(s: State, step: Step)
    requires Inv(s) && Enabled(s, step)
    ensures Inv(Next(s, step))
  {
    if step.In? || step.OutAnnouncer? || step.OutMatcher? {
      TaskStepKeeps(s, step);
    } else if step.Tick? {
      TimeStepKeeps(s, step);
    } else {
      CallStepKeeps(s, step);
    }
  }

  lemma {:induction false} RunKeepsInv(steps: seq<Step>)
    requires ValidRun(steps)
    ensures Inv(After(steps))
  {
    if steps != [] {
      RunKeepsInv(steps[..|steps| - 1]);
      StepKeepsInv(After(steps[..|steps| - 1]), steps[|steps| - 1]);
    }
  }

  // ---- What it means ----

  /** What it means that this `match_out` call returned this reply: one `match_in` call made the tunnel
      id, and that call took this call's lock, read this call's data and is of the OUT asked for. It
      returned too, or failed on seeing an error after its reply had gone out. */
  ghost predicate Paired(s: State, k: MatchKey, reply: Reply)
    requires k in s.ins
  {
    && reply.tunnelId in s.published && s.published[reply.tunnelId] in s.outs
    && var i, out := s.ins[k], s.outs[s.published[reply.tunnelId]];
       && out.made == Some(Made(Announcement(i.from, k), i.data, reply.tunnelId))
       && (out.phase.Replied? || out.phase == OutFailed(MatcherFault))
       && out.taken.Some? && out.taken.value.key == k
       && out.outId == reply.outId == i.outId
  }

  predicate ReturnedTunnel(s: State, k: MatchKey, tunnelId: TunnelId) {
    k in s.ins && s.ins[k].returned.Some? && s.ins[k].returned.value.tunnelId == tunnelId
  }

  /** Pairing, for every interleaving: a tunnel id a `match_out` call ever returned, even if it then
      failed to get its stream, was made by exactly one `match_in` call, as above; and no other
      `match_out` call ever returned it. */
  lemma Pairing(steps: seq<Step>, k: MatchKey)
    requires ValidRun(steps) && k in After(steps).ins && After(steps).ins[k].returned.Some?
    ensures var s := After(steps);
            var reply := s.ins[k].returned.value;
            && Paired(s, k, reply)
            && (forall p :: p in s.outs && s.outs[p].made.Some? && s.outs[p].made.value.tunnelId == reply.tunnelId ==>
                  p == s.published[reply.tunnelId])
            && (forall j :: ReturnedTunnel(s, j, reply.tunnelId) ==> j == k)
  {
    RunKeepsInv(steps);
    PairedState(After(steps), k);
  }

  lemma PairedState(s: State, k: MatchKey)
    requires Inv(s) && k in s.ins && s.ins[k].returned.Some?
    ensures var reply := s.ins[k].returned.value;
            && Paired(s, k, reply)
            && (forall p :: p in s.outs && s.outs[p].made.Some? && s.outs[p].made.value.tunnelId == reply.tunnelId ==>
                  p == s.published[reply.tunnelId])
            && (forall j :: ReturnedTunnel(s, j, reply.tunnelId) ==> j == k)
  {
    var reply := s.ins[k].returned.value;
    assert InOk(s, k);
    assert OutOk(s, s.published[reply.tunnelId]);
    forall p | p in s.outs && s.outs[p].made.Some? && s.outs[p].made.value.tunnelId == reply.tunnelId
      ensures p == s.published[reply.tunnelId]
    {
      assert OutOk(s, p);
    }
    forall j | ReturnedTunnel(s, j, reply.tunnelId)
      ensures j == k
    {
      assert InOk(s, j);
    }
  }

  /** Any two calls that took the lock of one match key, and so any two that reply to it, took it
      at least five seconds apart. */
  lemma LockSeparation(steps: seq<Step>, o: OutCall, p: OutCall)
    requires ValidRun(steps)
    requires o in After(steps).outs && p in After(steps).outs && o != p
    requires After(steps).outs[o].taken.Some? && After(steps).outs[p].taken.Some?
    requires After(steps).outs[o].taken.value.key == After(steps).outs[p].taken.value.key
    ensures var a, b := After(steps).outs[o].taken.value.at, After(steps).outs[p].taken.value.at;
            a + MATCH_TIMEOUT_MS <= b || b + MATCH_TIMEOUT_MS <= a
    ensures After(steps).outs[o].made.Some? ==>
              After(steps).outs[o].made.value.ann.key == After(steps).outs[o].taken.value.key
  {
    RunKeepsInv(steps);
    var s := After(steps);
    assert OutOk(s, o);
    assert Apart(s.outs[o].taken, s.outs[p].taken);
  }

  /** The renewal can neither run nor fail between taking the lock and publishing the reply: a call
      it ended never took a lock, and while a call stands there its announcer has no step. */
  lemma RenewalNeverCutsIn(steps: seq<Step>, o: OutCall)
    requires ValidRun(steps) && o in After(steps).outs
    ensures var out := After(steps).outs[o];
            out.phase.OutFailed? && out.phase.cause in {LeaseExpired, AnnouncerFault} ==> out.taken.None?
    ensures var out := After(steps).outs[o];
            out.phase.Locked? || out.phase.Got? ==>
              forall move :: !Enabled(After(steps), OutAnnouncer(o, move))
  {
    RunKeepsInv(steps);
    assert OutOk(After(steps), o);
  }

  /** The stream an IN call ends up with was opened by the OUT call it is paired with, and no two IN
      calls share a stream. */
  lemma StreamPairing(steps: seq<Step>, k: MatchKey)
    requires ValidRun(steps) && k in After(steps).ins && After(steps).ins[k].phase.Established?
    ensures var s := After(steps);
            var stream := s.ins[k].phase.stream;
            && s.ins[k].returned == Some(s.ins[k].phase.reply)
            && stream in s.outs && s.outs[stream].phase.Replied? && s.outs[stream].connected
            && s.outs[stream].phase.ann.key == k && s.outs[stream].phase.data == s.ins[k].data
            && s.outs[stream].outId == s.ins[k].outId
    ensures var s := After(steps);
            var stream := s.ins[k].phase.stream;
            forall j :: j in s.ins && s.ins[j].phase.Established? && s.ins[j].phase.stream == stream ==> j == k
  {
    RunKeepsInv(steps);
    var s := After(steps);
    assert InOk(s, k);
    PairedState(s, k);
    forall j | j in s.ins && s.ins[j].phase.Established? && s.ins[j].phase.stream == s.ins[k].phase.stream
      ensures j == k
    {
      assert InOk(s, j);
    }
  }
}
