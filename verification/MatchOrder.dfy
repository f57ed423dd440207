/** In which order the steps of one call come: what each step of the match protocol waits for, told from the
    steps the call has taken. */
module MatchOrder {
  import opened Prelude
  import opened MatchProtocol
  import opened MatchLeases

  /** The latest step of the call's announcing task. */
  function LastAnnouncer(steps: seq<Step>, o: OutCall): Option<AnnouncerMove> {
    if steps == [] then None
    else
      var last := steps[|steps| - 1];
      if last.OutAnnouncer? && last.out == o then Some(last.announcerMove)
      else LastAnnouncer(steps[..|steps| - 1], o)
  }

  /** The latest step of its matching task, lost messages aside. */
  function LastMatcher(steps: seq<Step>, o: OutCall): Option<MatcherMove> {
    if steps == [] then None
    else
      var last := steps[|steps| - 1];
      if last.OutMatcher? && last.out == o && !last.matcherMove.LoseAnnouncement? then Some(last.matcherMove)
      else LastMatcher(steps[..|steps| - 1], o)
  }

  /** Where the announcing task stands after its latest step; `set` when it has set the key before. */
  predicate AnnouncerAt(announcer: Announcer, last: Option<AnnouncerMove>, set': bool) {
    match announcer
    case Starting => last == None && !set'
    case Setting => last == Some(TakeMutex) && !set'
    case Publishing => last == Some(SetKey) && set'
    case Sleeping => (last == Some(PublishKey) || last == Some(RenewKey)) && set'
    case Renewing => last == Some(TakeMutex) && set'
  }

  /** Where the matching task stands; `took` when it has taken a lock. */
  predicate MatcherAt(phase: OutPhase, last: Option<MatcherMove>, took: bool) {
    match phase
    case Waiting => (last == None || last == Some(TryLock)) && !took
    case Popped(_) => last == Some(Pop) && !took
    case Locking(_) => last == Some(LockMutex) && !took
    case Locked(_) => last == Some(TryLock) && took
    case Got(_, _) => last == Some(GetData) && took
    case _ => true
  }

  ghost predicate Placed(s: State, o: OutCall, lastA: Option<AnnouncerMove>, lastM: Option<MatcherMove>, set': bool) {
    o in s.outs && Running(s.outs[o]) ==>
      AnnouncerAt(s.outs[o].announcer, lastA, set') && MatcherAt(s.outs[o].phase, lastM, s.outs[o].taken.Some?)
  }

  lemma AnnouncerPlaces(
      s: State, o: OutCall, move: AnnouncerMove, lastA: Option<AnnouncerMove>, lastM: Option<MatcherMove>, set': bool)
    requires AnnouncerEnabled(s, o, move) && Placed(s, o, lastA, lastM, set')
    ensures Placed(AnnouncerNext(s, o, move), o, Some(move), lastM, set' || move.SetKey?)
  {
    match move {
      case TakeMutex =>
      case SetKey =>
      case PublishKey =>
      case RenewKey =>
      case AnnouncerFail =>
    }
  }

  lemma MatcherPlaces(
      s: State, o: OutCall, move: MatcherMove, lastA: Option<AnnouncerMove>, lastM: Option<MatcherMove>, set': bool)
    requires MatcherEnabled(s, o, move) && Placed(s, o, lastA, lastM, set')
    ensures Placed(MatcherNext(s, o, move), o, lastA, if move.LoseAnnouncement? then lastM else Some(move), set')
  {
    match move {
      case Pop =>
      case LoseAnnouncement =>
      case LockMutex =>
      case TryLock =>
      case GetData =>
      case PublishReply(_, _) =>
      case MatcherFail =>
    }
  }

  /** A step of anybody else leaves the call where it stands. */
  lemma OthersPlace(
      s: State, step: Step, o: OutCall, lastA: Option<AnnouncerMove>, lastM: Option<MatcherMove>, set': bool)
    requires Enabled(s, step) && Placed(s, o, lastA, lastM, set')
    requires !(step.OutAnnouncer? && step.out == o) && !(step.OutMatcher? && step.out == o)
    requires step.OutSubscribe? && step.out == o ==> lastA == None && lastM == None && !set'
    ensures Placed(Next(s, step), o, lastA, lastM, set')
  {
    match step {
      case In(k, move) => InAnnouncers(s, k, move, o);
      case OutAnnouncer(p, move) => AnnouncerOuts(s, p, move);
      case OutMatcher(p, move) => MatcherOuts(s, p, move);
      case Tick(_) =>
      case OutSubscribe(_, _) =>
      case OutCrash(_) =>
      case StreamArrives(_) =>
    }
  }

  lemma InAnnouncers(s: State, k: MatchKey, move: InMove, p: OutCall)
    requires InEnabled(s, k, move)
    ensures SameOut(s, InNext(s, k, move), p)
    ensures p in s.outs ==> InNext(s, k, move).outs[p].announcer == s.outs[p].announcer
  {
    if !move.Announce? {
      assert InNext(s, k, move).outs == s.outs;
    }
  }

  /** A call that is not there yet has taken no step. */
  lemma {:induction false} NoStepsYet(steps: seq<Step>, o: OutCall)
    requires ValidRun(steps) && o !in After(steps).outs
    ensures LastAnnouncer(steps, o) == None && LastMatcher(steps, o) == None && OutAnnouncer(o, SetKey) !in steps
  {
    if steps != [] {
      var front, last := steps[..|steps| - 1], steps[|steps| - 1];
      assert steps == front + [last];
      OutStays(After(front), last, o);
      NoStepsYet(front, o);
    }
  }

  lemma OutStays(s: State, step: Step, o: OutCall)
    requires Enabled(s, step)
    ensures o in s.outs ==> o in Next(s, step).outs
    ensures (step.OutAnnouncer? || step.OutMatcher?) && step.out == o ==> o in s.outs
  {
    if o in s.outs {
      StepOuts(s, step, o, s.outs[o].outId);
    }
  }

  lemma {:induction false} PlacedBySteps(steps: seq<Step>, o: OutCall)
    requires ValidRun(steps)
    ensures Placed(After(steps), o, LastAnnouncer(steps, o), LastMatcher(steps, o), OutAnnouncer(o, SetKey) in steps)
  {
    if steps != [] {
      var front, last := steps[..|steps| - 1], steps[|steps| - 1];
      var s, set' := After(front), OutAnnouncer(o, SetKey) in front;
      assert steps == front + [last];
      PlacedBySteps(front, o);
      if last.OutAnnouncer? && last.out == o {
        AnnouncerPlaces(s, o, last.announcerMove, LastAnnouncer(front, o), LastMatcher(front, o), set');
      } else if last.OutMatcher? && last.out == o {
        MatcherPlaces(s, o, last.matcherMove, LastAnnouncer(front, o), LastMatcher(front, o), set');
      } else {
        if o !in s.outs {
          NoStepsYet(front, o);
        }
        OthersPlace(s, last, o, LastAnnouncer(front, o), LastMatcher(front, o), set');
      }
    }
  }

  /** The announcing task has the connection. */
  predicate AnnouncerBusy(last: Option<AnnouncerMove>) {
    last == Some(TakeMutex) || last == Some(SetKey)
  }

  /** The matching task has the connection. */
  predicate MatcherBusy(last: Option<MatcherMove>, took: bool) {
    last == Some(LockMutex) || last == Some(GetData) || (last == Some(TryLock) && took)
  }

  /** While the call runs its announcing task sets and publishes the key once and then renews it again and again,
      each under the connection's mutex, and every one of these commands may fail. */
  lemma AnnouncerOrder(steps: seq<Step>, o: OutCall, move: AnnouncerMove)
    requires ValidRun(steps) && o in After(steps).outs && Running(After(steps).outs[o])
    ensures var last, set' := LastAnnouncer(steps, o), OutAnnouncer(o, SetKey) in steps;
            Enabled(After(steps), OutAnnouncer(o, move)) <==>
              match move
              case TakeMutex =>
                !AnnouncerBusy(last) && !MatcherBusy(LastMatcher(steps, o), After(steps).outs[o].taken.Some?)
              case SetKey => last == Some(TakeMutex) && !set'
              case PublishKey => last == Some(SetKey)
              case RenewKey => last == Some(TakeMutex) && set'
              case AnnouncerFail => AnnouncerBusy(last)
  {
    PlacedBySteps(steps, o);
  }

  /** Its matching task takes an announcement, the mutex, the lock, the data and replies, in that order, and
      starts over only when the lock was not free; every command may fail. */
  lemma MatcherOrder(steps: seq<Step>, o: OutCall, move: MatcherMove)
    requires ValidRun(steps) && o in After(steps).outs && Running(After(steps).outs[o])
    ensures var last, out := LastMatcher(steps, o), After(steps).outs[o];
            Enabled(After(steps), OutMatcher(o, move)) <==>
              match move
              case Pop => (last == None || (last == Some(TryLock) && out.taken.None?)) && out.inbox != []
              case LoseAnnouncement => out.inbox != []
              case LockMutex => last == Some(Pop) && !AnnouncerBusy(LastAnnouncer(steps, o))
              case TryLock => last == Some(LockMutex)
              case GetData => last == Some(TryLock) && out.taken.Some?
              case PublishReply(t, _) => last == Some(GetData) && t !in After(steps).published
              case MatcherFail => last != Some(Pop)
  {
    PlacedBySteps(steps, o);
  }

  // ---- What ends a call ----

  /** After the steps `before`, this one ends the call: it replies, finds its key or the data gone, or fails. */
  ghost predicate Ends(before: seq<Step>, step: Step, o: OutCall)
    requires ValidRun(before) && Enabled(After(before), step)
  {
    || step == OutCrash(o) || step == OutAnnouncer(o, AnnouncerFail) || step == OutMatcher(o, MatcherFail)
    || (step.OutMatcher? && step.out == o && step.matcherMove.PublishReply?)
    || (step == OutMatcher(o, GetData) && !DataKept(before, After(before).outs[o].phase.ann.key))
    || (step == OutAnnouncer(o, RenewKey) && !KeyKept(before, After(before).outs[o].outId))
  }

  lemma AnnouncerRuns(s: State, o: OutCall, move: AnnouncerMove)
    requires AnnouncerEnabled(s, o, move)
    ensures Running(AnnouncerNext(s, o, move).outs[o]) <==>
              !(move.AnnouncerFail? || (move.RenewKey? && !OutKeyLive(s, s.outs[o].outId)))
  {
    match move {
      case TakeMutex =>
      case SetKey =>
      case PublishKey =>
      case RenewKey =>
      case AnnouncerFail =>
    }
  }

  lemma MatcherRuns(s: State, o: OutCall, move: MatcherMove)
    requires MatcherEnabled(s, o, move)
    ensures Running(MatcherNext(s, o, move).outs[o]) <==>
              !(move.MatcherFail? || move.PublishReply?
                || (move.GetData? && !StoredLive(s, s.outs[o].phase.ann.key)))
  {
    match move {
      case Pop =>
      case LoseAnnouncement =>
      case LockMutex =>
      case TryLock =>
      case GetData =>
      case PublishReply(_, _) =>
      case MatcherFail =>
    }
  }

  /** A running call runs on unless a step ends it, and one that has ended stays so. */
  lemma StepRuns(steps: seq<Step>, step: Step, o: OutCall)
    requires ValidRun(steps) && Enabled(After(steps), step) && o in After(steps).outs
    ensures o in Next(After(steps), step).outs
    ensures Running(Next(After(steps), step).outs[o]) <==> Running(After(steps).outs[o]) && !Ends(steps, step, o)
  {
    var s := After(steps);
    OutStays(s, step, o);
    match step {
      case In(k, move) => InOuts(s, k, move, o);
      case OutAnnouncer(p, move) =>
        AnnouncerOuts(s, p, move);
        if p == o {
          AnnouncerRuns(s, o, move);
          KeyLive(steps, s.outs[o].outId);
        }
      case OutMatcher(p, move) =>
        MatcherOuts(s, p, move);
        if p == o {
          MatcherRuns(s, o, move);
          if move.GetData? {
            DataLive(steps, s.outs[o].phase.ann.key);
          }
        }
      case Tick(_) =>
      case OutSubscribe(_, _) =>
      case OutCrash(_) =>
      case StreamArrives(_) =>
    }
  }

  ghost predicate EndedAt(steps: seq<Step>, o: OutCall, n: nat)
    requires ValidRun(steps) && n < |steps|
  {
    PrefixRun(steps, n);
    Ends(steps[..n], steps[n], o)
  }

  /** A call runs until the first of its steps that ends it. */
  lemma {:induction false} RunsExactly(steps: seq<Step>, o: OutCall)
    requires ValidRun(steps) && o in After(steps).outs
    ensures Running(After(steps).outs[o]) <==> forall n :: 0 <= n < |steps| ==> !EndedAt(steps, o, n)
  {
    var front, last := steps[..|steps| - 1], steps[|steps| - 1];
    forall n | 0 <= n < |front|
      ensures EndedAt(steps, o, n) <==> EndedAt(front, o, n)
    {
      assert steps[..n] == front[..n];
    }
    if o in After(front).outs {
      RunsExactly(front, o);
      StepRuns(front, last, o);
      assert EndedAt(steps, o, |front|) <==> Ends(front, last, o);
    } else {
      NotEndedYet(front, o);
      StartsRunning(After(front), last, o);
      assert !EndedAt(steps, o, |front|);
    }
  }

  lemma StartsRunning(s: State, step: Step, o: OutCall)
    requires Enabled(s, step) && o !in s.outs && o in Next(s, step).outs
    ensures step.OutSubscribe? && step.out == o && Running(Next(s, step).outs[o])
  {
    StepOuts(s, step, o, Next(s, step).outs[o].outId);
  }

  lemma {:induction false} NotEndedYet(steps: seq<Step>, o: OutCall)
    requires ValidRun(steps) && o !in After(steps).outs
    ensures forall n :: 0 <= n < |steps| ==> !EndedAt(steps, o, n)
  {
    if steps != [] {
      var front, last := steps[..|steps| - 1], steps[|steps| - 1];
      OutStays(After(front), last, o);
      NotEndedYet(front, o);
      forall n | 0 <= n < |front|
        ensures !EndedAt(steps, o, n)
      {
        assert steps[..n] == front[..n];
        assert !EndedAt(front, o, n);
      }
      assert !Ends(front, last, o);
    }
  }

  // ---- The IN side ----

  /** The latest step of the `match_out` call, lost messages aside. */
  function LastIn(steps: seq<Step>, k: MatchKey): Option<InMove> {
    if steps == [] then None
    else
      var last := steps[|steps| - 1];
      if last.In? && last.key == k && !last.inMove.LoseReply? then Some(last.inMove)
      else LastIn(steps[..|steps| - 1], k)
  }

  predicate InAt(phase: InPhase, last: Option<InMove>) {
    match phase
    case Subscribed => last.Some? && last.value.Subscribe?
    case Active => last == Some(Check)
    case Inactive => last == Some(Check)
    case Announcing => last == Some(StoreData) || last == Some(Announce) || last == Some(RenewData)
    case Matched(_) => last == Some(Receive) || last == Some(TakeStream)
    case Established(_, _) => last == Some(TakeStream)
    case InFailed => last == Some(Fail)
  }

  ghost predicate InPlaced(s: State, k: MatchKey, last: Option<InMove>) {
    if k in s.ins then InAt(s.ins[k].phase, last) else last == None
  }

  lemma InPlaces(s: State, k: MatchKey, move: InMove, last: Option<InMove>)
    requires InEnabled(s, k, move) && InPlaced(s, k, last)
    ensures InPlaced(InNext(s, k, move), k, if move.LoseReply? then last else Some(move))
  {
    match move {
      case Subscribe(_, _, _) =>
      case Check =>
      case StoreData =>
      case Announce =>
      case RenewData =>
      case Receive =>
      case LoseReply =>
      case Fail =>
      case TakeStream =>
    }
  }

  lemma OtherIns(s: State, j: MatchKey, move: InMove, k: MatchKey)
    requires InEnabled(s, j, move) && j != k
    ensures k in InNext(s, j, move).ins <==> k in s.ins
    ensures k in s.ins ==> InNext(s, j, move).ins[k] == s.ins[k]
  {
  }

  lemma MatcherPhases(s: State, o: OutCall, move: MatcherMove, k: MatchKey)
    requires MatcherEnabled(s, o, move)
    ensures k in MatcherNext(s, o, move).ins <==> k in s.ins
    ensures k in s.ins ==> MatcherNext(s, o, move).ins[k].phase == s.ins[k].phase
  {
  }

  lemma {:induction false} InPlacedBySteps(steps: seq<Step>, k: MatchKey)
    requires ValidRun(steps)
    ensures InPlaced(After(steps), k, LastIn(steps, k))
  {
    if steps != [] {
      var front, last := steps[..|steps| - 1], steps[|steps| - 1];
      var s := After(front);
      InPlacedBySteps(front, k);
      match last {
        case In(j, move) =>
          if j == k { InPlaces(s, k, move, LastIn(front, k)); } else { OtherIns(s, j, move, k); }
        case OutAnnouncer(p, move) => AnnouncerTables(s, p, move);
        case OutMatcher(p, move) => MatcherPhases(s, p, move, k);
        case Tick(_) =>
        case OutSubscribe(_, _) =>
        case OutCrash(_) =>
        case StreamArrives(_) =>
      }
    }
  }

  predicate Announces(last: Option<InMove>) {
    last == Some(StoreData) || last == Some(Announce) || last == Some(RenewData)
  }

  /** An IN call subscribes, looks for its OUT, stores its data once and then announces itself and renews the data
      again and again, until it has a reply; then it looks for its stream until it has it. */
  lemma InOrder(steps: seq<Step>, k: MatchKey, move: InMove)
    requires ValidRun(steps)
    ensures var last, s := LastIn(steps, k), After(steps);
            var found := last == Some(Check) && k in s.ins && !s.ins[k].phase.Inactive?;
            var hears := k in s.ins && s.ins[k].inbox != [];
            Enabled(s, In(k, move)) <==>
              match move
              case Subscribe(_, _, _) => last == None
              case Check => last.Some? && last.value.Subscribe?
              case StoreData => found
              case Announce => Announces(last)
              case RenewData => Announces(last)
              case Receive => (found || Announces(last)) && hears
              case LoseReply => ((last.Some? && last.value.Subscribe?) || found || Announces(last)) && hears
              case Fail =>
                k in s.ins && last != Some(Fail) && !s.ins[k].phase.Inactive? && !s.ins[k].phase.Established?
              case TakeStream =>
                k in s.ins && (last == Some(Receive) || last == Some(TakeStream)) && !s.ins[k].phase.Established?
                && s.ins[k].data.provider in s.slots
  {
    InPlacedBySteps(steps, k);
  }
}
