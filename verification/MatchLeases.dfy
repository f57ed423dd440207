/** What expires in Redis, told from the steps a run took and their clocks alone: the OUT keys, the
    stored IN data and the locks of the match keys. */
module MatchLeases {
  import opened Prelude
  import opened Ids
  import opened MatchProtocol
  import opened MatchPairing

  /** The clock after these steps. */
  function Clock(steps: seq<Step>): int {
    if steps == [] then 0
    else
      var last := steps[|steps| - 1];
      Clock(steps[..|steps| - 1]) + if last.Tick? then last.ms else 0
  }

  lemma {:induction false} ClockGrows(steps: seq<Step>, m: nat)
    requires m <= |steps|
    ensures Clock(steps[..m]) <= Clock(steps)
    decreases |steps|
  {
    if m == |steps| {
      assert steps[..m] == steps;
    } else {
      assert steps[..|steps| - 1][..m] == steps[..m];
      ClockGrows(steps[..|steps| - 1], m);
    }
  }

  // ---- What the steps leave as it was ----

  lemma InTables(s: State, k: MatchKey, move: InMove)
    requires InEnabled(s, k, move)
    ensures var t := InNext(s, k, move); t.now == s.now && t.outKeys == s.outKeys && t.locks == s.locks
  {
  }

  /** Call `p` before and after a step of somebody else's. */
  predicate SameOut(s: State, t: State, p: OutCall) {
    && (p in t.outs <==> p in s.outs)
    && (p in s.outs ==>
          && t.outs[p].outId == s.outs[p].outId && t.outs[p].phase == s.outs[p].phase
          && t.outs[p].taken == s.outs[p].taken)
  }

  lemma InOuts(s: State, k: MatchKey, move: InMove, p: OutCall)
    requires InEnabled(s, k, move)
    ensures SameOut(s, InNext(s, k, move), p)
  {
    if !move.Announce? {
      assert InNext(s, k, move).outs == s.outs;
    }
  }

  lemma AnnouncerTables(s: State, o: OutCall, move: AnnouncerMove)
    requires AnnouncerEnabled(s, o, move)
    ensures var t := AnnouncerNext(s, o, move);
            t.now == s.now && t.locks == s.locks && t.stored == s.stored && t.ins == s.ins
  {
    match move {
      case TakeMutex =>
      case SetKey =>
      case PublishKey =>
      case RenewKey =>
      case AnnouncerFail =>
    }
  }

  lemma AnnouncerOuts(s: State, o: OutCall, move: AnnouncerMove)
    requires AnnouncerEnabled(s, o, move)
    ensures var t := AnnouncerNext(s, o, move);
            t.outs == s.outs[o := t.outs[o]]
            && t.outs[o].outId == s.outs[o].outId && t.outs[o].taken == s.outs[o].taken
  {
    match move {
      case TakeMutex =>
      case SetKey =>
      case PublishKey =>
      case RenewKey =>
      case AnnouncerFail =>
    }
  }

  lemma MatcherTables(s: State, o: OutCall, move: MatcherMove)
    requires MatcherEnabled(s, o, move)
    ensures var t := MatcherNext(s, o, move); t.now == s.now && t.outKeys == s.outKeys && t.stored == s.stored
    ensures !move.TryLock? ==> MatcherNext(s, o, move).locks == s.locks
  {
  }

  lemma MatcherOuts(s: State, o: OutCall, move: MatcherMove)
    requires MatcherEnabled(s, o, move)
    ensures var t := MatcherNext(s, o, move);
            t.outs == s.outs[o := t.outs[o]]
            && t.outs[o].outId == s.outs[o].outId && t.outs[o].phase != OutFailed(LeaseExpired)
    ensures !move.TryLock? ==> MatcherNext(s, o, move).outs[o].taken == s.outs[o].taken
  {
    match move {
      case Pop =>
      case LoseAnnouncement =>
      case LockMutex =>
      case TryLock =>
      case GetData =>
      case PublishReply(_, _) =>
      case MatcherFail =>
    }
  }

  lemma StepClock(s: State, step: Step)
    requires Enabled(s, step)
    ensures Next(s, step).now == s.now + if step.Tick? then step.ms else 0
  {
    match step {
      case In(k, move) => InTables(s, k, move);
      case OutAnnouncer(o, move) => AnnouncerTables(s, o, move);
      case OutMatcher(o, move) => MatcherTables(s, o, move);
      case _ =>
    }
  }

  lemma {:induction false} NowIsClock(steps: seq<Step>)
    requires ValidRun(steps)
    ensures After(steps).now == Clock(steps)
  {
    if steps != [] {
      NowIsClock(steps[..|steps| - 1]);
      StepClock(After(steps[..|steps| - 1]), steps[|steps| - 1]);
    }
  }

  lemma {:induction false} PrefixRun(steps: seq<Step>, n: nat)
    requires ValidRun(steps) && n <= |steps|
    ensures ValidRun(steps[..n])
    ensures n < |steps| ==> Enabled(After(steps[..n]), steps[n])
    decreases |steps|
  {
    if n == |steps| {
      assert steps[..n] == steps;
    } else {
      var front := steps[..|steps| - 1];
      assert front[..n] == steps[..n];
      PrefixRun(front, n);
      if n == |front| {
        assert front[..n] == front;
      }
    }
  }

  lemma RunSnoc(steps: seq<Step>, step: Step)
    requires ValidRun(steps + [step])
    ensures ValidRun(steps) && Enabled(After(steps), step) && After(steps + [step]) == Next(After(steps), step)
  {
    assert (steps + [step])[..|steps|] == steps;
  }

  // ---- Whose call it is ----

  lemma StepOuts(s: State, step: Step, o: OutCall, outId: OutId)
    requires Enabled(s, step)
    ensures var t := Next(s, step);
            (o in t.outs && t.outs[o].outId == outId)
            <==> (o in s.outs && s.outs[o].outId == outId) || step == OutSubscribe(o, outId)
  {
    match step {
      case In(k, move) => InOuts(s, k, move, o);
      case OutAnnouncer(p, move) => AnnouncerOuts(s, p, move);
      case OutMatcher(p, move) => MatcherOuts(s, p, move);
      case Tick(_) =>
      case OutSubscribe(_, _) =>
      case OutCrash(_) =>
      case StreamArrives(_) =>
    }
  }

  /** A call is of the OUT that subscribed it. */
  lemma {:induction false} CallOfOut(steps: seq<Step>, o: OutCall, outId: OutId)
    requires ValidRun(steps)
    ensures (o in After(steps).outs && After(steps).outs[o].outId == outId) <==> OutSubscribe(o, outId) in steps
  {
    if steps != [] {
      var front, last := steps[..|steps| - 1], steps[|steps| - 1];
      CallOfOut(front, o, outId);
      StepOuts(After(front), last, o, outId);
      assert steps == front + [last];
    }
  }

  ghost predicate Asked(i: InCall, move: InMove) {
    move.Subscribe? && i.from == move.from && i.outId == move.outId && i.data == move.data
  }

  lemma InIns(s: State, k: MatchKey, move: InMove, j: MatchKey, asked: InMove)
    requires InEnabled(s, k, move) && asked.Subscribe?
    ensures var t := InNext(s, k, move);
            (j in t.ins && Asked(t.ins[j], asked))
            <==> (j in s.ins && Asked(s.ins[j], asked)) || (j == k && move == asked)
  {
    match move {
      case Subscribe(_, _, _) =>
      case Check =>
      case StoreData =>
      case Announce =>
      case RenewData =>
      case Receive =>
      case LoseReply =>
      case Fail =>
      case TakeStream =>
    }
  }

  lemma MatcherIns(s: State, o: OutCall, move: MatcherMove, j: MatchKey, asked: InMove)
    requires MatcherEnabled(s, o, move) && asked.Subscribe?
    ensures var t := MatcherNext(s, o, move);
            (j in t.ins && Asked(t.ins[j], asked)) <==> (j in s.ins && Asked(s.ins[j], asked))
  {
  }

  lemma StepIns(s: State, step: Step, k: MatchKey, move: InMove)
    requires Enabled(s, step) && move.Subscribe?
    ensures var t := Next(s, step);
            (k in t.ins && Asked(t.ins[k], move)) <==> (k in s.ins && Asked(s.ins[k], move)) || step == In(k, move)
  {
    match step {
      case In(j, inMove) => InIns(s, j, inMove, k, move);
      case OutAnnouncer(o, announcerMove) => AnnouncerTables(s, o, announcerMove);
      case OutMatcher(o, matcherMove) => MatcherIns(s, o, matcherMove, k, move);
      case Tick(_) =>
      case OutSubscribe(_, _) =>
      case OutCrash(_) =>
      case StreamArrives(_) =>
    }
  }

  lemma {:induction false} CallOfIn(steps: seq<Step>, k: MatchKey, move: InMove)
    requires ValidRun(steps) && move.Subscribe?
    ensures (k in After(steps).ins && Asked(After(steps).ins[k], move)) <==> In(k, move) in steps
  {
    if steps != [] {
      var front, last := steps[..|steps| - 1], steps[|steps| - 1];
      CallOfIn(front, k, move);
      StepIns(After(front), last, k, move);
      assert steps == front + [last];
    }
  }

  // ---- The OUT key: five seconds from the last SET or successful EXPIRE ----

  /** After the steps `before`, this one writes the OUT's key: a SET, or an EXPIRE in time. */
  ghost predicate WritesKey(before: seq<Step>, step: Step, outId: OutId)
    decreases |before|, 1
  {
    && step.OutAnnouncer? && OutSubscribe(step.out, outId) in before
    && (step.announcerMove.SetKey? || (step.announcerMove.RenewKey? && KeyKept(before, outId)))
  }

  /** Some step wrote the key less than five seconds ago. */
  ghost predicate KeyKept(steps: seq<Step>, outId: OutId)
    decreases |steps|, 0
  {
    exists m: nat :: m < |steps| && WritesKey(steps[..m], steps[m], outId) && Clock(steps) < Clock(steps[..m]) + 5_000
  }

  lemma AnnouncerKey(s: State, o: OutCall, move: AnnouncerMove)
    requires AnnouncerEnabled(s, o, move)
    ensures var t, outId := AnnouncerNext(s, o, move), s.outs[o].outId;
            t.outKeys == if move.SetKey? || (move.RenewKey? && OutKeyLive(s, outId))
                         then s.outKeys[outId := s.now + 5_000] else s.outKeys
  {
    match move {
      case TakeMutex =>
      case SetKey =>
      case PublishKey =>
      case RenewKey =>
      case AnnouncerFail =>
    }
  }

  lemma StepKey(s: State, step: Step, outId: OutId)
    requires Enabled(s, step)
    ensures var t := Next(s, step);
            var writes := step.OutAnnouncer? && s.outs[step.out].outId == outId
              && (step.announcerMove.SetKey? || (step.announcerMove.RenewKey? && OutKeyLive(s, outId)));
            if writes then outId in t.outKeys && t.outKeys[outId] == s.now + 5_000
            else (outId in t.outKeys <==> outId in s.outKeys)
                 && (outId in s.outKeys ==> t.outKeys[outId] == s.outKeys[outId])
  {
    match step {
      case In(k, move) => InTables(s, k, move);
      case OutAnnouncer(p, move) => AnnouncerKey(s, p, move);
      case OutMatcher(p, move) => MatcherTables(s, p, move);
      case Tick(_) =>
      case OutSubscribe(_, _) =>
      case OutCrash(_) =>
      case StreamArrives(_) =>
    }
  }

  /** The key's expiry is that of its latest write. */
  ghost predicate KeyFrom(steps: seq<Step>, outId: OutId, outKeys: map<OutId, int>) {
    && (outId in outKeys ==>
          exists m: nat :: m < |steps| && WritesKey(steps[..m], steps[m], outId)
                           && outKeys[outId] == Clock(steps[..m]) + 5_000)
    && (forall m: nat :: m < |steps| && WritesKey(steps[..m], steps[m], outId) ==>
          outId in outKeys && Clock(steps[..m]) + 5_000 <= outKeys[outId])
  }

  lemma KeptFromExpiry(steps: seq<Step>, outId: OutId, outKeys: map<OutId, int>)
    requires KeyFrom(steps, outId, outKeys)
    ensures KeyKept(steps, outId) <==> outId in outKeys && Clock(steps) < outKeys[outId]
  {
  }

  lemma KeyWritten(front: seq<Step>, last: Step, outId: OutId, outKeys: map<OutId, int>)
    requires WritesKey(front, last, outId) && outId in outKeys && outKeys[outId] == Clock(front) + 5_000
    ensures KeyFrom(front + [last], outId, outKeys)
  {
    var steps := front + [last];
    assert steps[..|front|] == front && steps[|front|] == last;
    forall m: nat | m < |steps|
      ensures Clock(steps[..m]) <= Clock(front)
    {
      assert steps[..m] == front[..m];
      ClockGrows(front, m);
    }
  }

  lemma KeyLeft(front: seq<Step>, last: Step, outId: OutId, before: map<OutId, int>, outKeys: map<OutId, int>)
    requires KeyFrom(front, outId, before) && !WritesKey(front, last, outId)
    requires outId in outKeys <==> outId in before
    requires outId in before ==> outKeys[outId] == before[outId]
    ensures KeyFrom(front + [last], outId, outKeys)
  {
    var steps := front + [last];
    assert steps[..|front|] == front;
    assert forall m: nat :: m < |front| ==> steps[..m] == front[..m] && steps[m] == front[m];
    if outId in outKeys {
      var m: nat :| m < |front| && WritesKey(front[..m], front[m], outId)
                    && before[outId] == Clock(front[..m]) + 5_000;
      assert steps[..m] == front[..m] && steps[m] == front[m];
    }
  }

  lemma {:induction false} KeyExpiry(steps: seq<Step>, outId: OutId)
    requires ValidRun(steps)
    ensures KeyFrom(steps, outId, After(steps).outKeys)
  {
    if steps != [] {
      var front, last := steps[..|steps| - 1], steps[|steps| - 1];
      var s := After(front);
      KeyExpiry(front, outId);
      KeptFromExpiry(front, outId, s.outKeys);
      NowIsClock(front);
      StepKey(s, last, outId);
      if last.OutAnnouncer? {
        CallOfOut(front, last.out, outId);
      }
      assert steps == front + [last];
      if WritesKey(front, last, outId) {
        KeyWritten(front, last, outId, After(steps).outKeys);
      } else {
        KeyLeft(front, last, outId, s.outKeys, After(steps).outKeys);
      }
    }
  }

  lemma KeyLive(steps: seq<Step>, outId: OutId)
    requires ValidRun(steps)
    ensures OutKeyLive(After(steps), outId) <==> KeyKept(steps, outId)
  {
    KeyExpiry(steps, outId);
    KeptFromExpiry(steps, outId, After(steps).outKeys);
    NowIsClock(steps);
  }

  /** A renewal ends its call if and only if the key was not written in the last five seconds; else it
      leaves the call waiting for the next one. */
  lemma RenewalExactly(steps: seq<Step>, o: OutCall, outId: OutId)
    requires ValidRun(steps + [OutAnnouncer(o, RenewKey)]) && OutSubscribe(o, outId) in steps
    ensures ValidRun(steps) && o in After(steps).outs
    ensures var out := After(steps).outs[o];
            var after := After(steps + [OutAnnouncer(o, RenewKey)]).outs;
            && o in after && (after[o].phase == OutFailed(LeaseExpired) <==> !KeyKept(steps, outId))
            && after[o] == if KeyKept(steps, outId) then out.(announcer := Sleeping)
                           else out.(phase := OutFailed(LeaseExpired))
  {
    RunSnoc(steps, OutAnnouncer(o, RenewKey));
    CallOfOut(steps, o, outId);
    KeyLive(steps, outId);
  }

  /** EXISTS finds the OUT if and only if its key was written in the last five seconds. */
  lemma CheckExactly(steps: seq<Step>, k: MatchKey, move: InMove)
    requires ValidRun(steps + [In(k, Check)]) && move.Subscribe? && In(k, move) in steps
    ensures var after := After(steps + [In(k, Check)]).ins;
            k in after && after[k].phase == if KeyKept(steps, move.outId) then Active else Inactive
  {
    RunSnoc(steps, In(k, Check));
    CallOfIn(steps, k, move);
    KeyLive(steps, move.outId);
  }

  /** The call sets or renews its key at step `m`. */
  predicate Refreshes(steps: seq<Step>, o: OutCall, m: nat)
    requires m < |steps|
  {
    steps[m] == OutAnnouncer(o, SetKey) || steps[m] == OutAnnouncer(o, RenewKey)
  }

  /** Every renewal of the call comes less than five seconds after a set or renewal of its own. */
  ghost predicate RenewsInTime(steps: seq<Step>, o: OutCall) {
    forall n: nat :: n < |steps| && steps[n] == OutAnnouncer(o, RenewKey) ==>
      exists m: nat :: m < n && Refreshes(steps, o, m) && Clock(steps[..n]) < Clock(steps[..m]) + 5_000
  }

  lemma SubscribedFirst(steps: seq<Step>, o: OutCall, outId: OutId, m: nat)
    requires ValidRun(steps) && m < |steps| && Refreshes(steps, o, m) && OutSubscribe(o, outId) in steps
    ensures OutSubscribe(o, outId) in steps[..m]
  {
    PrefixRun(steps, m);
    var s := After(steps[..m]);
    CallOfOut(steps[..m], o, s.outs[o].outId);
    assert forall x :: x in steps[..m] ==> x in steps;
    CallOfOut(steps, o, s.outs[o].outId);
    CallOfOut(steps, o, outId);
  }

  lemma {:induction false} InTimeWrites(steps: seq<Step>, o: OutCall, outId: OutId, n: nat)
    requires ValidRun(steps) && n < |steps| && Refreshes(steps, o, n) && OutSubscribe(o, outId) in steps
    requires RenewsInTime(steps, o)
    ensures WritesKey(steps[..n], steps[n], outId)
  {
    SubscribedFirst(steps, o, outId, n);
    if steps[n] == OutAnnouncer(o, RenewKey) {
      var m: nat :| m < n && Refreshes(steps, o, m) && Clock(steps[..n]) < Clock(steps[..m]) + 5_000;
      InTimeWrites(steps, o, outId, m);
      assert steps[..n][..m] == steps[..m] && steps[..n][m] == steps[m];
      assert KeyKept(steps[..n], outId);
    }
  }

  lemma AnnouncerExpires(s: State, o: OutCall, move: AnnouncerMove)
    requires AnnouncerEnabled(s, o, move) && AnnouncerNext(s, o, move).outs[o].phase == OutFailed(LeaseExpired)
    ensures move.RenewKey? && !OutKeyLive(s, s.outs[o].outId)
  {
  }

  lemma StepExpires(s: State, step: Step, o: OutCall)
    requires Enabled(s, step) && o in Next(s, step).outs && Next(s, step).outs[o].phase == OutFailed(LeaseExpired)
    ensures o in s.outs
    ensures s.outs[o].phase == OutFailed(LeaseExpired)
            || (step == OutAnnouncer(o, RenewKey) && !OutKeyLive(s, s.outs[o].outId))
  {
    match step {
      case In(k, move) => InOuts(s, k, move, o);
      case OutAnnouncer(p, move) =>
        AnnouncerOuts(s, p, move);
        if p == o {
          AnnouncerExpires(s, o, move);
        }
      case OutMatcher(p, move) => MatcherOuts(s, p, move);
      case Tick(_) =>
      case OutSubscribe(_, _) =>
      case OutCrash(_) =>
      case StreamArrives(_) =>
    }
  }

  /** A call that renews in time never loses its lease. */
  lemma {:induction false} InTimeNeverExpires(steps: seq<Step>, o: OutCall)
    requires ValidRun(steps) && RenewsInTime(steps, o)
    ensures o in After(steps).outs ==> After(steps).outs[o].phase != OutFailed(LeaseExpired)
  {
    if steps != [] {
      var front, last := steps[..|steps| - 1], steps[|steps| - 1];
      assert steps == front + [last];
      InTimeFront(steps, o);
      InTimeNeverExpires(front, o);
      var s := After(front);
      if o in After(steps).outs && After(steps).outs[o].phase == OutFailed(LeaseExpired) {
        StepExpires(s, last, o);
        var outId := s.outs[o].outId;
        CallOfOut(front, o, outId);
        KeyLive(front, outId);
        InTimeWrites(steps, o, outId, |front|);
      }
    }
  }

  lemma InTimeFront(steps: seq<Step>, o: OutCall)
    requires steps != [] && RenewsInTime(steps, o)
    ensures RenewsInTime(steps[..|steps| - 1], o)
  {
    var front := steps[..|steps| - 1];
    forall n: nat | n < |front| && front[n] == OutAnnouncer(o, RenewKey)
      ensures exists m: nat :: m < n && Refreshes(front, o, m) && Clock(front[..n]) < Clock(front[..m]) + 5_000
    {
      var m: nat :| m < n && Refreshes(steps, o, m) && Clock(steps[..n]) < Clock(steps[..m]) + 5_000;
      assert front[..n] == steps[..n] && front[..m] == steps[..m];
      assert Refreshes(front, o, m);
    }
  }

  // ---- The stored IN data: thirty seconds from the SET or last successful EXPIRE ----

  /** After the steps `before`, this one writes the call's data: the SET, or an EXPIRE in time. */
  ghost predicate WritesData(before: seq<Step>, step: Step, k: MatchKey)
    decreases |before|, 1
  {
    step == In(k, StoreData) || (step == In(k, RenewData) && DataKept(before, k))
  }

  /** Some step wrote the data less than thirty seconds ago. */
  ghost predicate DataKept(steps: seq<Step>, k: MatchKey)
    decreases |steps|, 0
  {
    exists m: nat :: m < |steps| && WritesData(steps[..m], steps[m], k) && Clock(steps) < Clock(steps[..m]) + 30_000
  }

  /** Only a call past its SET has anything stored. */
  ghost predicate StoredBySet(s: State) {
    forall k :: k in s.stored ==> k in s.ins && !s.ins[k].phase.Subscribed? && !s.ins[k].phase.Active?
  }

  lemma InStored(s: State, k: MatchKey, move: InMove)
    requires InEnabled(s, k, move) && StoredBySet(s)
    ensures StoredBySet(InNext(s, k, move))
  {
  }

  lemma MatcherStored(s: State, o: OutCall, move: MatcherMove)
    requires MatcherEnabled(s, o, move) && StoredBySet(s)
    ensures StoredBySet(MatcherNext(s, o, move))
  {
  }

  lemma {:induction false} StoredOnlyBySet(steps: seq<Step>)
    requires ValidRun(steps)
    ensures StoredBySet(After(steps))
  {
    if steps != [] {
      var s, step := After(steps[..|steps| - 1]), steps[|steps| - 1];
      StoredOnlyBySet(steps[..|steps| - 1]);
      match step {
        case In(k, move) => InStored(s, k, move);
        case OutAnnouncer(o, move) => AnnouncerTables(s, o, move);
        case OutMatcher(o, move) => MatcherStored(s, o, move);
        case Tick(_) =>
        case OutSubscribe(_, _) =>
        case OutCrash(_) =>
        case StreamArrives(_) =>
      }
    }
  }

  function Expiries(s: State): map<MatchKey, int> {
    map k | k in s.stored :: s.stored[k].expiresAt
  }

  lemma InExpiries(s: State, j: MatchKey, move: InMove)
    requires InEnabled(s, j, move) && StoredBySet(s)
    ensures Expiries(InNext(s, j, move)) ==
            if move.StoreData? || (move.RenewData? && StoredLive(s, j)) then Expiries(s)[j := s.now + 30_000]
            else Expiries(s)
  {
  }

  lemma StepExpiries(s: State, step: Step, k: MatchKey)
    requires Enabled(s, step) && StoredBySet(s)
    ensures var before, after := Expiries(s), Expiries(Next(s, step));
            if step == In(k, StoreData) || (step == In(k, RenewData) && StoredLive(s, k))
            then k in after && after[k] == s.now + 30_000
            else (k in after <==> k in before) && (k in before ==> after[k] == before[k])
  {
    match step {
      case In(j, move) => InExpiries(s, j, move);
      case OutAnnouncer(o, move) => AnnouncerTables(s, o, move);
      case OutMatcher(o, move) => MatcherTables(s, o, move);
      case Tick(_) =>
      case OutSubscribe(_, _) =>
      case OutCrash(_) =>
      case StreamArrives(_) =>
    }
  }

  ghost predicate DataFrom(steps: seq<Step>, k: MatchKey, expiries: map<MatchKey, int>) {
    && (k in expiries ==>
          exists m: nat :: m < |steps| && WritesData(steps[..m], steps[m], k)
                           && expiries[k] == Clock(steps[..m]) + 30_000)
    && (forall m: nat :: m < |steps| && WritesData(steps[..m], steps[m], k) ==>
          k in expiries && Clock(steps[..m]) + 30_000 <= expiries[k])
  }

  lemma KeptFromData(steps: seq<Step>, k: MatchKey, expiries: map<MatchKey, int>)
    requires DataFrom(steps, k, expiries)
    ensures DataKept(steps, k) <==> k in expiries && Clock(steps) < expiries[k]
  {
  }

  lemma DataWritten(front: seq<Step>, last: Step, k: MatchKey, expiries: map<MatchKey, int>)
    requires WritesData(front, last, k) && k in expiries && expiries[k] == Clock(front) + 30_000
    ensures DataFrom(front + [last], k, expiries)
  {
    var steps := front + [last];
    assert steps[..|front|] == front && steps[|front|] == last;
    forall m: nat | m < |steps|
      ensures Clock(steps[..m]) <= Clock(front)
    {
      assert steps[..m] == front[..m];
      ClockGrows(front, m);
    }
  }

  lemma DataLeft(front: seq<Step>, last: Step, k: MatchKey, before: map<MatchKey, int>, expiries: map<MatchKey, int>)
    requires DataFrom(front, k, before) && !WritesData(front, last, k)
    requires k in expiries <==> k in before
    requires k in before ==> expiries[k] == before[k]
    ensures DataFrom(front + [last], k, expiries)
  {
    var steps := front + [last];
    assert steps[..|front|] == front;
    assert forall m: nat :: m < |front| ==> steps[..m] == front[..m] && steps[m] == front[m];
    if k in expiries {
      var m: nat :| m < |front| && WritesData(front[..m], front[m], k) && before[k] == Clock(front[..m]) + 30_000;
      assert steps[..m] == front[..m] && steps[m] == front[m];
    }
  }

  lemma {:induction false} DataExpiry(steps: seq<Step>, k: MatchKey)
    requires ValidRun(steps)
    ensures DataFrom(steps, k, Expiries(After(steps)))
  {
    if steps != [] {
      var front, last := steps[..|steps| - 1], steps[|steps| - 1];
      var s := After(front);
      DataExpiry(front, k);
      KeptFromData(front, k, Expiries(s));
      NowIsClock(front);
      StoredOnlyBySet(front);
      StepExpiries(s, last, k);
      assert steps == front + [last];
      if WritesData(front, last, k) {
        DataWritten(front, last, k, Expiries(After(steps)));
      } else {
        DataLeft(front, last, k, Expiries(s), Expiries(After(steps)));
      }
    }
  }

  lemma DataLive(steps: seq<Step>, k: MatchKey)
    requires ValidRun(steps)
    ensures StoredLive(After(steps), k) <==> DataKept(steps, k)
  {
    DataExpiry(steps, k);
    KeptFromData(steps, k, Expiries(After(steps)));
    NowIsClock(steps);
  }

  lemma LockedKey(s: State, o: OutCall)
    requires Inv(s) && o in s.outs && s.outs[o].phase.Locked?
    ensures var key := s.outs[o].phase.ann.key;
            key in s.ins && (key in s.stored ==> s.stored[key].data == s.ins[key].data)
  {
    assert OutOk(s, o);
  }

  lemma GetNext(s: State, o: OutCall)
    requires MatcherEnabled(s, o, GetData)
    ensures var ann := s.outs[o].phase.ann;
            MatcherNext(s, o, GetData).outs[o].phase ==
            if StoredLive(s, ann.key) then Got(ann, s.stored[ann.key].data) else OutFailed(MatcherFault)
  {
  }

  /** GET under the lock finds the data the IN call was made with if and only if it was written in the
      last thirty seconds; else the call fails. */
  lemma GetExactly(steps: seq<Step>, o: OutCall, asked: InMove)
    requires ValidRun(steps + [OutMatcher(o, GetData)]) && asked.Subscribe?
    ensures ValidRun(steps) && MatcherEnabled(After(steps), o, GetData)
    ensures var ann := After(steps).outs[o].phase.ann;
            var after := After(steps + [OutMatcher(o, GetData)]).outs;
            In(ann.key, asked) in steps ==>
              o in after
              && after[o].phase == if DataKept(steps, ann.key) then Got(ann, asked.data) else OutFailed(MatcherFault)
  {
    RunSnoc(steps, OutMatcher(o, GetData));
    RunKeepsInv(steps);
    var s := After(steps);
    LockedKey(s, o);
    CallOfIn(steps, s.outs[o].phase.ann.key, asked);
    DataLive(steps, s.outs[o].phase.ann.key);
    GetNext(s, o);
  }

  predicate Renews(steps: seq<Step>, k: MatchKey, m: nat)
    requires m < |steps|
  {
    steps[m] == In(k, StoreData) || steps[m] == In(k, RenewData)
  }

  /** Every renewal of the data comes less than thirty seconds after the SET or another one. */
  ghost predicate DataInTime(steps: seq<Step>, k: MatchKey) {
    forall n: nat :: n < |steps| && steps[n] == In(k, RenewData) ==>
      exists m: nat :: m < n && Renews(steps, k, m) && Clock(steps[..n]) < Clock(steps[..m]) + 30_000
  }

  lemma {:induction false} InTimeWritesData(steps: seq<Step>, k: MatchKey, n: nat)
    requires n < |steps| && Renews(steps, k, n) && DataInTime(steps, k)
    ensures WritesData(steps[..n], steps[n], k)
  {
    if steps[n] == In(k, RenewData) {
      var m: nat :| m < n && Renews(steps, k, m) && Clock(steps[..n]) < Clock(steps[..m]) + 30_000;
      InTimeWritesData(steps, k, m);
      assert steps[..n][..m] == steps[..m] && steps[..n][m] == steps[m];
      assert DataKept(steps[..n], k);
    }
  }

  /** Data renewed in time is there if and only if its SET or some renewal is less than thirty seconds
      back. */
  lemma InTimeDataStays(steps: seq<Step>, k: MatchKey)
    requires ValidRun(steps) && DataInTime(steps, k)
    ensures StoredLive(After(steps), k) <==>
            exists m: nat :: m < |steps| && Renews(steps, k, m) && Clock(steps) < Clock(steps[..m]) + 30_000
  {
    DataLive(steps, k);
    if m: nat :| m < |steps| && Renews(steps, k, m) && Clock(steps) < Clock(steps[..m]) + 30_000 {
      InTimeWritesData(steps, k, m);
    }
    if DataKept(steps, k) {
      var m: nat :| m < |steps| && WritesData(steps[..m], steps[m], k) && Clock(steps) < Clock(steps[..m]) + 30_000;
      assert Renews(steps, k, m);
    }
  }

  // ---- The lock of a match key: five seconds from the SET NX that took it ----

  /** Call `p` took the lock of `key` less than five seconds before `now`. */
  predicate Holds(p: OutState, key: MatchKey, now: int) {
    p.taken.Some? && p.taken.value.key == key && now < p.taken.value.at + 5_000
  }

  /** Every lock there is was taken by some call, five seconds before it runs out. */
  ghost predicate LocksTaken(s: State) {
    forall k :: k in s.locks ==> exists p :: p in s.outs && s.outs[p].taken == Some(Lock(k, s.locks[k] - 5_000))
  }

  lemma LocksKept(s: State, t: State)
    requires LocksTaken(s) && t.locks == s.locks
    requires forall p :: p in s.outs && s.outs[p].taken.Some? ==> p in t.outs && t.outs[p].taken == s.outs[p].taken
    ensures LocksTaken(t)
  {
    forall k | k in t.locks
      ensures exists p :: p in t.outs && t.outs[p].taken == Some(Lock(k, t.locks[k] - 5_000))
    {
      var p :| p in s.outs && s.outs[p].taken == Some(Lock(k, s.locks[k] - 5_000));
      assert p in t.outs;
    }
  }

  lemma LockNext(s: State, o: OutCall)
    requires MatcherEnabled(s, o, TryLock)
    ensures var t, ann := MatcherNext(s, o, TryLock), s.outs[o].phase.ann;
            if LockLive(s, ann.key) then t == s.(outs := s.outs[o := s.outs[o].(phase := Waiting)])
            else
              && t.locks == s.locks[ann.key := s.now + 5_000]
              && t.outs == s.outs[o := s.outs[o].(phase := Locked(ann), taken := Some(Lock(ann.key, s.now)))]
  {
  }

  lemma LockTryTaken(s: State, o: OutCall)
    requires MatcherEnabled(s, o, TryLock) && LocksTaken(s) && s.outs[o].taken.None?
    ensures LocksTaken(MatcherNext(s, o, TryLock))
  {
    var t, key := MatcherNext(s, o, TryLock), s.outs[o].phase.ann.key;
    LockNext(s, o);
    forall k | k in t.locks
      ensures exists p :: p in t.outs && t.outs[p].taken == Some(Lock(k, t.locks[k] - 5_000))
    {
      if k == key && !LockLive(s, key) {
        assert t.outs[o].taken == Some(Lock(k, t.locks[k] - 5_000));
      } else {
        var p :| p in s.outs && s.outs[p].taken == Some(Lock(k, s.locks[k] - 5_000));
        assert t.outs[p].taken == s.outs[p].taken;
      }
    }
  }

  lemma {:induction false} LocksAreTaken(steps: seq<Step>)
    requires ValidRun(steps)
    ensures LocksTaken(After(steps))
  {
    if steps != [] {
      LocksAreTaken(steps[..|steps| - 1]);
      RunKeepsInv(steps[..|steps| - 1]);
      StepTaken(After(steps[..|steps| - 1]), steps[|steps| - 1]);
    }
  }

  lemma InTaken(s: State, k: MatchKey, move: InMove)
    requires InEnabled(s, k, move) && LocksTaken(s)
    ensures LocksTaken(InNext(s, k, move))
  {
    var t := InNext(s, k, move);
    InTables(s, k, move);
    forall p
      ensures SameOut(s, t, p)
    {
      InOuts(s, k, move, p);
    }
    LocksKept(s, t);
  }

  lemma AnnouncerTaken(s: State, o: OutCall, move: AnnouncerMove)
    requires AnnouncerEnabled(s, o, move) && LocksTaken(s)
    ensures LocksTaken(AnnouncerNext(s, o, move))
  {
    AnnouncerTables(s, o, move);
    AnnouncerOuts(s, o, move);
    LocksKept(s, AnnouncerNext(s, o, move));
  }

  lemma MatcherTaken(s: State, o: OutCall, move: MatcherMove)
    requires MatcherEnabled(s, o, move) && LocksTaken(s) && Inv(s)
    ensures LocksTaken(MatcherNext(s, o, move))
  {
    if move.TryLock? {
      assert OutOk(s, o);
      LockTryTaken(s, o);
    } else {
      OtherMatcherTaken(s, o, move);
    }
  }

  lemma OtherMatcherTaken(s: State, o: OutCall, move: MatcherMove)
    requires MatcherEnabled(s, o, move) && LocksTaken(s) && !move.TryLock?
    ensures LocksTaken(MatcherNext(s, o, move))
  {
    MatcherTables(s, o, move);
    MatcherOuts(s, o, move);
    LocksKept(s, MatcherNext(s, o, move));
  }

  lemma CallTaken(s: State, step: Step)
    requires Enabled(s, step) && LocksTaken(s)
    requires step.Tick? || step.OutSubscribe? || step.OutCrash? || step.StreamArrives?
    ensures LocksTaken(Next(s, step))
  {
    LocksKept(s, Next(s, step));
  }

  lemma StepTaken(s: State, step: Step)
    requires Enabled(s, step) && LocksTaken(s) && Inv(s)
    ensures LocksTaken(Next(s, step))
  {
    match step {
      case In(k, move) => InTaken(s, k, move);
      case OutAnnouncer(o, move) => AnnouncerTaken(s, o, move);
      case OutMatcher(o, move) => MatcherTaken(s, o, move);
      case Tick(_) => CallTaken(s, step);
      case OutSubscribe(_, _) => CallTaken(s, step);
      case OutCrash(_) => CallTaken(s, step);
      case StreamArrives(_) => CallTaken(s, step);
    }
  }

  lemma LiveIsHeld(s: State, key: MatchKey)
    requires Inv(s) && LocksTaken(s)
    ensures LockLive(s, key) <==> exists p :: p in s.outs && Holds(s.outs[p], key, s.now)
  {
    if LockLive(s, key) {
      var p :| p in s.outs && s.outs[p].taken == Some(Lock(key, s.locks[key] - 5_000));
      assert Holds(s.outs[p], key, s.now);
    }
    if p :| p in s.outs && Holds(s.outs[p], key, s.now) {
      assert OutOk(s, p);
    }
  }

  /** SET NX on a lock misses if and only if some call took that lock in the last five seconds; then
      the call waits for the next announcement, else it goes on to read the data. */
  lemma TryLockExactly(steps: seq<Step>, o: OutCall)
    requires ValidRun(steps + [OutMatcher(o, TryLock)])
    ensures ValidRun(steps) && MatcherEnabled(After(steps), o, TryLock)
    ensures var outs, ann := After(steps).outs, After(steps).outs[o].phase.ann;
            var after := After(steps + [OutMatcher(o, TryLock)]).outs;
            after == outs[o :=
              if exists p :: p in outs && Holds(outs[p], ann.key, Clock(steps)) then outs[o].(phase := Waiting)
              else outs[o].(phase := Locked(ann), taken := Some(Lock(ann.key, Clock(steps))))]
  {
    RunSnoc(steps, OutMatcher(o, TryLock));
    RunKeepsInv(steps);
    LocksAreTaken(steps);
    NowIsClock(steps);
    var s := After(steps);
    LiveIsHeld(s, s.outs[o].phase.ann.key);
    LockNext(s, o);
  }
}
