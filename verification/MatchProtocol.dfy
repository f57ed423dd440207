/** The match protocol over Redis, as a step system: many IN calls (`match_out`) and many OUT calls
    (`match_in`) of one match name, keys with a time to live, channels, and time. It ends with the
    one-slot mailbox in which an IN provider of plug-http2 picks up the TCP streams.
    An IN call goes by its match key, a fresh UUID. */
module MatchProtocol {
  import opened Prelude
  import opened Ids

  const MATCH_TIMEOUT_MS := 5_000
  const MATCH_IN_DATA_EXPIRATION_MS := 30_000

  type MatchKey = nat
  type OutCall = nat
  type InId = nat
  type Provider = nat

  /** The published IN data: it carries the address of the provider's listener. */
  datatype InData = InData(provider: Provider, payload: string)

  datatype Announcement = Announcement(from: InId, key: MatchKey)

  /** The fields of `MatchOut` that pair the two sides. */
  datatype Reply = Reply(outId: OutId, tunnelId: TunnelId)

  datatype InPhase =
    | Subscribed                                 // before EXISTS on the OUT key
    | Active                                     // before SET on the match key
    | Announcing
    | Matched(reply: Reply)                      // returned; waiting for the TCP stream
    | Established(reply: Reply, stream: OutCall)
    | Inactive                                   // returned None
    | InFailed

  datatype InCall = InCall(
    from: InId, outId: OutId, data: InData, phase: InPhase, inbox: seq<Reply>,
    returned: Option<Reply>)                     // what `match_out` returned, whatever became of it

  datatype Cause = LeaseExpired | AnnouncerFault | MatcherFault | Crash

  datatype OutPhase =
    | Waiting
    | Popped(ann: Announcement)                  // waiting for the connection mutex
    | Locking(ann: Announcement)                 // holding it, before SET NX on the lock key
    | Locked(ann: Announcement)                  // before GET
    | Got(ann: Announcement, data: InData)       // before PUBLISH
    | Replied(ann: Announcement, data: InData, tunnelId: TunnelId)
    | OutFailed(cause: Cause)

  datatype Announcer = Starting | Setting | Publishing | Sleeping | Renewing

  datatype Lock = Lock(key: MatchKey, at: int)

  /** A reply that was published: to whom, from what data, and with which tunnel id. */
  datatype Made = Made(ann: Announcement, data: InData, tunnelId: TunnelId)

  datatype OutState = OutState(
    outId: OutId, phase: OutPhase, inbox: seq<Announcement>, announcer: Announcer,
    taken: Option<Lock>,                         // the lock this call took, and when
    made: Option<Made>,                          // the reply this call published, whether it knows or not
    connected: bool)                             // has its TCP stream reached the IN listener

  datatype Stored = Stored(data: InData, expiresAt: int)

  datatype Arrived = Arrived(tunnelId: TunnelId, stream: OutCall)

  datatype State = State(
    now: int,
    outKeys: map<OutId, int>,
    stored: map<MatchKey, Stored>,
    locks: map<MatchKey, int>,
    ins: map<MatchKey, InCall>,
    outs: map<OutCall, OutState>,
    published: map<TunnelId, OutCall>,           // every tunnel id made so far, and by whom
    slots: map<Provider, Arrived>)

  const INITIAL := State(0, map[], map[], map[], map[], map[], map[], map[])

  predicate OutKeyLive(s: State, o: OutId) {
    o in s.outKeys && s.now < s.outKeys[o]
  }

  predicate StoredLive(s: State, k: MatchKey) {
    k in s.stored && s.now < s.stored[k].expiresAt
  }

  predicate LockLive(s: State, k: MatchKey) {
    k in s.locks && s.now < s.locks[k]
  }

  predicate Listening(i: InCall) {
    i.phase.Subscribed? || i.phase.Active? || i.phase.Announcing?
  }

  predicate Running(o: OutState) {
    !o.phase.Replied? && !o.phase.OutFailed?
  }

  /** The connection mutex of the call: held by the matcher, by the announcer, or free. */
  predicate MatcherHolds(o: OutState) {
    o.phase.Locking? || o.phase.Locked? || o.phase.Got?
  }

  predicate AnnouncerHolds(o: OutState) {
    o.announcer.Setting? || o.announcer.Publishing? || o.announcer.Renewing?
  }

  predicate MutexFree(o: OutState) {
    !MatcherHolds(o) && !AnnouncerHolds(o)
  }

  /** What a `match_out` call does next. */
  datatype InMove =
    | Subscribe(from: InId, outId: OutId, data: InData)
    | Check | StoreData | Announce | RenewData | Receive | LoseReply | Fail | TakeStream

  /** What the announcing task of a `match_in` call does next. */
  datatype AnnouncerMove = TakeMutex | SetKey | PublishKey | RenewKey | AnnouncerFail

  /** What its matching task does next. */
  datatype MatcherMove =
    | Pop | LoseAnnouncement | LockMutex | TryLock | GetData | MatcherFail
    | PublishReply(tunnelId: TunnelId, seen: bool)

  datatype Step =
    | Tick(ms: nat)
    | In(key: MatchKey, inMove: InMove)
    | OutSubscribe(out: OutCall, outId: OutId)
    | OutAnnouncer(out: OutCall, announcerMove: AnnouncerMove)
    | OutMatcher(out: OutCall, matcherMove: MatcherMove)
    | OutCrash(out: OutCall)
    | StreamArrives(out: OutCall)

  predicate InEnabled(s: State, k: MatchKey, move: InMove) {
    if move.Subscribe? then k !in s.ins
    else
      k in s.ins &&
      match move
      case Check => s.ins[k].phase.Subscribed?
      case StoreData => s.ins[k].phase.Active?
      case Announce => s.ins[k].phase.Announcing?
      case RenewData => s.ins[k].phase.Announcing?
      case Receive => (s.ins[k].phase.Active? || s.ins[k].phase.Announcing?) && s.ins[k].inbox != []
      case LoseReply => Listening(s.ins[k]) && s.ins[k].inbox != []
      case Fail => Listening(s.ins[k]) || s.ins[k].phase.Matched?
      case TakeStream => s.ins[k].phase.Matched? && s.ins[k].data.provider in s.slots
  }

  predicate AnnouncerEnabled(s: State, o: OutCall, move: AnnouncerMove) {
    o in s.outs && Running(s.outs[o]) &&
    match move
    case TakeMutex => MutexFree(s.outs[o])
    case SetKey => s.outs[o].announcer.Setting?
    case PublishKey => s.outs[o].announcer.Publishing?
    case RenewKey => s.outs[o].announcer.Renewing?
    case AnnouncerFail => AnnouncerHolds(s.outs[o])
  }

  predicate MatcherEnabled(s: State, o: OutCall, move: MatcherMove) {
    o in s.outs && Running(s.outs[o]) &&
    match move
    case Pop => s.outs[o].phase.Waiting? && s.outs[o].inbox != []
    case LoseAnnouncement => s.outs[o].inbox != []
    case LockMutex => s.outs[o].phase.Popped? && MutexFree(s.outs[o])
    case TryLock => s.outs[o].phase.Locking?
    case GetData => s.outs[o].phase.Locked?
    case PublishReply(t, _) => s.outs[o].phase.Got? && t !in s.published
    case MatcherFail => s.outs[o].phase.Waiting? || MatcherHolds(s.outs[o])
  }

  predicate Enabled(s: State, step: Step) {
    match step
    case Tick(_) => true
    case In(k, move) => InEnabled(s, k, move)
    case OutSubscribe(o, _) => o !in s.outs
    case OutAnnouncer(o, move) => AnnouncerEnabled(s, o, move)
    case OutMatcher(o, move) => MatcherEnabled(s, o, move)
    case OutCrash(o) => o in s.outs && Running(s.outs[o])
    case StreamArrives(o) => o in s.outs && s.outs[o].phase.Replied? && !s.outs[o].connected
  }

  // ---- The effect of each step ----

  function SetIn(s: State, k: MatchKey, i: InCall): State {
    s.(ins := s.ins[k := i])
  }

  function SetOut(s: State, o: OutCall, out: OutState): State {
    s.(outs := s.outs[o := out])
  }

  function SetInPhase(s: State, k: MatchKey, phase: InPhase): State
    requires k in s.ins
  {
    SetIn(s, k, s.ins[k].(phase := phase))
  }

  function SetOutPhase(s: State, o: OutCall, phase: OutPhase): State
    requires o in s.outs
  {
    SetOut(s, o, s.outs[o].(phase := phase))
  }

  function SetAnnouncer(s: State, o: OutCall, announcer: Announcer): State
    requires o in s.outs
  {
    SetOut(s, o, s.outs[o].(announcer := announcer))
  }

  function SetOutKey(s: State, outId: OutId): State {
    s.(outKeys := s.outKeys[outId := s.now + MATCH_TIMEOUT_MS])
  }

  function Store(s: State, k: MatchKey, data: InData): State {
    s.(stored := s.stored[k := Stored(data, s.now + MATCH_IN_DATA_EXPIRATION_MS)])
  }

  /** SET NX EX on the match key; its answer is not looked at. */
  function StoreStep(s: State, k: MatchKey): State
    requires k in s.ins
  {
    SetInPhase(if StoredLive(s, k) then s else Store(s, k, s.ins[k].data), k, Announcing)
  }

  /** Publishing an announcement queues it at every running call of that OUT. */
  function Broadcast(outs: map<OutCall, OutState>, outId: OutId, ann: Announcement): map<OutCall, OutState> {
    map o | o in outs ::
      if outs[o].outId == outId && Running(outs[o]) then outs[o].(inbox := outs[o].inbox + [ann]) else outs[o]
  }

  function AnnounceStep(s: State, k: MatchKey): State
    requires k in s.ins
  {
    s.(outs := Broadcast(s.outs, s.ins[k].outId, Announcement(s.ins[k].from, k)))
  }

  /** `match_out` returns with the first reply. */
  function ReceiveStep(s: State, k: MatchKey): State
    requires k in s.ins && s.ins[k].inbox != []
  {
    SetIn(s, k, s.ins[k].(phase := Matched(s.ins[k].inbox[0]), returned := Some(s.ins[k].inbox[0])))
  }

  /** `wait_for_pending_stream`: take whatever is in the slot, keep it only if it is the right one. */
  function TakeStreamStep(s: State, k: MatchKey): State
    requires k in s.ins && s.ins[k].phase.Matched? && s.ins[k].data.provider in s.slots
  {
    var p := s.ins[k].data.provider;
    var arrived, reply := s.slots[p], s.ins[k].phase.reply;
    var t := s.(slots := s.slots - {p});
    if arrived.tunnelId == reply.tunnelId then SetInPhase(t, k, Established(reply, arrived.stream)) else t
  }

  /** SET NX EX on the lock key: missed while the lock lives, else taken for five seconds. */
  function LockStep(s: State, o: OutCall): State
    requires o in s.outs && s.outs[o].phase.Locking?
  {
    var ann := s.outs[o].phase.ann;
    if LockLive(s, ann.key) then SetOutPhase(s, o, Waiting)
    else
      SetOut(s.(locks := s.locks[ann.key := s.now + MATCH_TIMEOUT_MS]),
             o, s.outs[o].(phase := Locked(ann), taken := Some(Lock(ann.key, s.now))))
  }

  function GetStep(s: State, o: OutCall): State
    requires o in s.outs && s.outs[o].phase.Locked?
  {
    var ann := s.outs[o].phase.ann;
    SetOutPhase(s, o, if StoredLive(s, ann.key) then Got(ann, s.stored[ann.key].data) else OutFailed(MatcherFault))
  }

  /** The call makes a tunnel id and answers with it. When the answer takes effect and the call sees an
      error all the same, it fails. */
  function MakeTunnel(s: State, o: OutCall, tunnelId: TunnelId, seen: bool): State
    requires o in s.outs && s.outs[o].phase.Got?
  {
    var out := s.outs[o];
    var phase := if seen then Replied(out.phase.ann, out.phase.data, tunnelId) else OutFailed(MatcherFault);
    SetOut(s, o, out.(phase := phase, made := Some(Made(out.phase.ann, out.phase.data, tunnelId))))
      .(published := s.published[tunnelId := o])
  }

  /** A message on a match key is queued at its IN call if that still listens, else lost. */
  function Deliver(s: State, k: MatchKey, r: Reply): State {
    if k in s.ins && Listening(s.ins[k]) then SetIn(s, k, s.ins[k].(inbox := s.ins[k].inbox + [r])) else s
  }

  function PublishStep(s: State, o: OutCall, tunnelId: TunnelId, seen: bool): State
    requires o in s.outs && s.outs[o].phase.Got?
  {
    Deliver(MakeTunnel(s, o, tunnelId, seen), s.outs[o].phase.ann.key, Reply(s.outs[o].outId, tunnelId))
  }

  /** The TCP stream of a call that replied reaches the listener and replaces what is in the slot. */
  function ArriveStep(s: State, o: OutCall): State
    requires o in s.outs && s.outs[o].phase.Replied?
  {
    SetOut(s.(slots := s.slots[s.outs[o].phase.data.provider := Arrived(s.outs[o].phase.tunnelId, o)]),
           o, s.outs[o].(connected := true))
  }

  function InNext(s: State, k: MatchKey, move: InMove): State
    requires InEnabled(s, k, move)
  {
    match move
    case Subscribe(from, outId, data) => SetIn(s, k, InCall(from, outId, data, Subscribed, [], None))
    case Check => SetInPhase(s, k, if OutKeyLive(s, s.ins[k].outId) then Active else Inactive)
    case StoreData => StoreStep(s, k)
    case Announce => AnnounceStep(s, k)
    case RenewData => if StoredLive(s, k) then Store(s, k, s.stored[k].data) else s
    case Receive => ReceiveStep(s, k)
    case LoseReply => SetIn(s, k, s.ins[k].(inbox := s.ins[k].inbox[1..]))
    case Fail => SetInPhase(s, k, InFailed)
    case TakeStream => TakeStreamStep(s, k)
  }

  function AnnouncerNext(s: State, o: OutCall, move: AnnouncerMove): State
    requires AnnouncerEnabled(s, o, move)
  {
    match move
    case TakeMutex => SetAnnouncer(s, o, if s.outs[o].announcer.Starting? then Setting else Renewing)
    case SetKey => SetOutKey(SetAnnouncer(s, o, Publishing), s.outs[o].outId)
    case PublishKey => SetAnnouncer(s, o, Sleeping)
    case RenewKey =>
      if OutKeyLive(s, s.outs[o].outId) then SetOutKey(SetAnnouncer(s, o, Sleeping), s.outs[o].outId)
      else SetOutPhase(s, o, OutFailed(LeaseExpired))
    case AnnouncerFail => SetOutPhase(s, o, OutFailed(AnnouncerFault))
  }

  function MatcherNext(s: State, o: OutCall, move: MatcherMove): State
    requires MatcherEnabled(s, o, move)
  {
    match move
    case Pop => SetOut(s, o, s.outs[o].(phase := Popped(s.outs[o].inbox[0]), inbox := s.outs[o].inbox[1..]))
    case LoseAnnouncement => SetOut(s, o, s.outs[o].(inbox := s.outs[o].inbox[1..]))
    case LockMutex => SetOutPhase(s, o, Locking(s.outs[o].phase.ann))
    case TryLock => LockStep(s, o)
    case GetData => GetStep(s, o)
    case PublishReply(tunnelId, seen) => PublishStep(s, o, tunnelId, seen)
    case MatcherFail => SetOutPhase(s, o, OutFailed(MatcherFault))
  }

  function Next(s: State, step: Step): State
    requires Enabled(s, step)
  {
    match step
    case Tick(ms) => s.(now := s.now + ms)
    case In(k, move) => InNext(s, k, move)
    case OutSubscribe(o, outId) => SetOut(s, o, OutState(outId, Waiting, [], Starting, None, None, false))
    case OutAnnouncer(o, move) => AnnouncerNext(s, o, move)
    case OutMatcher(o, move) => MatcherNext(s, o, move)
    case OutCrash(o) => SetOutPhase(s, o, OutFailed(Crash))
    case StreamArrives(o) => ArriveStep(s, o)
  }

  // ---- Runs ----

  ghost predicate ValidRun(steps: seq<Step>)
    decreases |steps|, 0
  {
    steps == [] || (ValidRun(steps[..|steps| - 1]) && Enabled(After(steps[..|steps| - 1]), steps[|steps| - 1]))
  }

  ghost function After(steps: seq<Step>): State
    requires ValidRun(steps)
    decreases |steps|, 1
  {
    if steps == [] then INITIAL else Next(After(steps[..|steps| - 1]), steps[|steps| - 1])
  }
}
