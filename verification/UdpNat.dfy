/** The UDP address translation as a step system: the receive loop, the associations it feeds, the
    replies they read, and their end and removal, in any interleaving. */
module UdpNat {
  import opened Prelude
  import opened Addresses

  /** One datagram an association forwarded: where the client aimed it and where it went. */
  datatype Sent = Sent(original: SocketAddress, destination: SocketAddress)

  datatype Socket = Socket(id: nat, bound: SocketAddress)

  type Destinations = map<SocketAddress, SocketAddress>

  datatype AssociationView = AssociationView(
    realToOriginal: Destinations, originalToReal: Destinations,
    related: map<SocketAddress, Socket>, // the response sockets it holds on to
    ended: bool,                         // its task is over, its removal still to come
    sent: seq<Sent>)                     // everything it forwarded

  const NEW_ASSOCIATION := AssociationView(map[], map[], map[], false, [])

  /** The receive loop: between datagrams, between lookup and send, or over. */
  datatype Loop = Idle | Resolved(source: SocketAddress, original: SocketAddress, destination: SocketAddress) | Stopped

  datatype State = State(
    associations: map<SocketAddress, AssociationView>,
    sockets: map<SocketAddress, Socket>,
    made: nat,
    loop: Loop)

  const INITIAL := State(map[], map[], 0, Idle)

  /** What ends the receive loop other than a datagram that cannot be forwarded. */
  datatype Break =
    | ReceiveError                                                  // `receive` returns an error
    | ResolvePanics(source: SocketAddress, original: SocketAddress) // resolving a new original panics
    | OpenPanics                                                    // the socket of a new association is refused
    | Cancelled(entered: bool)                                      // a task joined with the loop has failed

  datatype Event =
    | Receive(source: SocketAddress, original: SocketAddress, resolved: Option<SocketAddress>)
    | Forward(written: bool)
    | Breaks(cause: Break)
    | Reply(source: SocketAddress, from: SocketAddress, binds: bool, written: bool)
    | End(source: SocketAddress)
    | Expire(source: SocketAddress, kept: set<SocketAddress>)

  function Get<K, V>(m: map<K, V>, k: K): Option<V> {
    if k in m then Some(m[k]) else None
  }

  // ---- The steps ----

  function Associated(s: State, source: SocketAddress, original: SocketAddress): Option<SocketAddress> {
    if source in s.associations then Get(s.associations[source].originalToReal, original) else None
  }

  function LookUp(s: State, source: SocketAddress, original: SocketAddress, resolved: Option<SocketAddress>): Loop {
    var destination := if Associated(s, source, original).Some? then Associated(s, source, original) else resolved;
    if destination.Some? then Resolved(source, original, destination.value) else Idle
  }

  function Record(a: AssociationView, original: SocketAddress, destination: SocketAddress): AssociationView {
    a.(realToOriginal := a.realToOriginal[destination := original],
       originalToReal := a.originalToReal[original := destination],
       sent := a.sent + [Sent(original, destination)])
  }

  function AssociationFor(s: State, source: SocketAddress): AssociationView {
    if source in s.associations then s.associations[source] else NEW_ASSOCIATION
  }

  /** Sending through an association whose task is over fails before the maps are touched. */
  function ForwardStep(
      s: State, source: SocketAddress, original: SocketAddress, destination: SocketAddress, written: bool): State
  {
    var a := AssociationFor(s, source);
    if a.ended then s.(loop := Stopped)
    else s.(associations := s.associations[source := Record(a, original, destination)],
            loop := if written then Idle else Stopped)
  }

  /** The loop ends where it stands. Dropped in the middle of a send, it may already have made the
      association and not yet touched its maps. */
  function BreakStep(s: State, cause: Break): State
    requires BreakEnabled(s, cause)
  {
    if cause == Cancelled(true) then
      s.(associations := s.associations[s.loop.source := AssociationFor(s, s.loop.source)], loop := Stopped)
    else s.(loop := Stopped)
  }

  predicate BreakEnabled(s: State, cause: Break) {
    match cause
    case ReceiveError => s.loop.Idle?
    case ResolvePanics(source, original) => s.loop.Idle? && Associated(s, source, original).None?
    case OpenPanics => s.loop.Resolved? && s.loop.source !in s.associations
    case Cancelled(entered) => if entered then s.loop.Resolved? else !s.loop.Stopped?
  }

  /** The address a reply from `from` is shown to come from. */
  function Presented(a: AssociationView, from: SocketAddress): SocketAddress {
    if from in a.realToOriginal then a.realToOriginal[from] else from
  }

  function Ended(a: AssociationView): AssociationView {
    a.(ended := true, related := map[])
  }

  /** `assign_response_socket`: the shared socket of `original`, made when there is none. */
  function WithSocket(s: State, original: SocketAddress): State {
    if original in s.sockets then s
    else s.(sockets := s.sockets[original := Socket(s.made, original)], made := s.made + 1)
  }

  function ReplyStep(s: State, source: SocketAddress, from: SocketAddress, binds: bool, written: bool): State
    requires source in s.associations
  {
    var a := s.associations[source];
    var original := Presented(a, from);
    if original !in s.sockets && !binds then s.(associations := s.associations[source := Ended(a)])
    else
      var t := WithSocket(s, original);
      t.(associations := t.associations[source :=
        if written then a.(related := a.related[original := t.sockets[original]]) else Ended(a)])
  }

  predicate Referenced(s: State, original: SocketAddress) {
    exists source :: source in s.associations && original in s.associations[source].related
  }

  /** Removal keeps every socket an association still holds; when it runs before the ending task has
      let go of its own, some of those stay too. It also runs for an association that could not be made. */
  predicate Enabled(s: State, e: Event) {
    match e
    case Receive(_, _, _) => s.loop.Idle?
    case Forward(_) => s.loop.Resolved?
    case Breaks(cause) => BreakEnabled(s, cause)
    case Reply(source, _, _, _) => source in s.associations && !s.associations[source].ended
    case End(source) => source in s.associations && !s.associations[source].ended
    case Expire(source, kept) =>
      && (source in s.associations ==> s.associations[source].ended) && kept <= s.sockets.Keys
      && forall original :: original in s.sockets && Referenced(s, original) ==> original in kept
  }

  function Next(s: State, e: Event): State
    requires Enabled(s, e)
  {
    match e
    case Receive(source, original, resolved) => s.(loop := LookUp(s, source, original, resolved))
    case Forward(written) => ForwardStep(s, s.loop.source, s.loop.original, s.loop.destination, written)
    case Breaks(cause) => BreakStep(s, cause)
    case Reply(source, from, binds, written) => ReplyStep(s, source, from, binds, written)
    case End(source) => s.(associations := s.associations[source := Ended(s.associations[source])])
    case Expire(source, kept) =>
      s.(associations := s.associations - {source}, sockets := map original | original in kept :: s.sockets[original])
  }

  ghost predicate ValidRun(es: seq<Event>)
    decreases |es|, 0
  {
    es == [] || (ValidRun(es[..|es| - 1]) && Enabled(After(es[..|es| - 1]), es[|es| - 1]))
  }

  ghost function After(es: seq<Event>): State
    requires ValidRun(es)
    decreases |es|, 1
  {
    if es == [] then INITIAL else Next(After(es[..|es| - 1]), es[|es| - 1])
  }

  // ---- What the maps mean in terms of what was sent ----

  /** The original the client used last to reach `destination`. */
  function LatestOriginal(sent: seq<Sent>, destination: SocketAddress): Option<SocketAddress> {
    if sent == [] then None
    else if sent[|sent| - 1].destination == destination then Some(sent[|sent| - 1].original)
    else LatestOriginal(sent[..|sent| - 1], destination)
  }

  /** Where the first datagram aimed at `original` went. */
  function FirstDestination(sent: seq<Sent>, original: SocketAddress): Option<SocketAddress> {
    if sent == [] then None
    else if sent[0].original == original then Some(sent[0].destination)
    else FirstDestination(sent[1..], original)
  }

  ghost predicate Inverse(a: AssociationView) {
    forall r :: r in a.realToOriginal ==>
      a.realToOriginal[r] in a.originalToReal && a.originalToReal[a.realToOriginal[r]] == r
  }

  ghost predicate MatchesHistory(a: AssociationView) {
    && (forall r :: Get(a.realToOriginal, r) == LatestOriginal(a.sent, r))
    && (forall o :: Get(a.originalToReal, o) == FirstDestination(a.sent, o))
    && (forall i :: 0 <= i < |a.sent| ==> FirstDestination(a.sent, a.sent[i].original) == Some(a.sent[i].destination))
  }

  ghost predicate Consistent(a: AssociationView) {
    && Inverse(a) && MatchesHistory(a)
    && (forall o :: o in a.originalToReal ==> a.originalToReal[o] in a.realToOriginal)
  }

  ghost predicate SocketsOk(s: State, a: AssociationView) {
    forall o :: o in a.related ==> o in s.sockets && s.sockets[o] == a.related[o]
  }

  ghost predicate Inv(s: State) {
    && (forall source :: source in s.associations ==>
          Consistent(s.associations[source]) && SocketsOk(s, s.associations[source]))
    && (forall o :: o in s.sockets ==> s.sockets[o].bound == o)
    && (s.loop.Resolved? ==>
          Associated(s, s.loop.source, s.loop.original) in {None, Some(s.loop.destination)})
  }

  lemma {:induction false} FirstDestinationSnoc(sent: seq<Sent>, last: Sent, o: SocketAddress)
    ensures FirstDestination(sent + [last], o)
         == if FirstDestination(sent, o).Some? then FirstDestination(sent, o)
            else if last.original == o then Some(last.destination) else None
  {
    if sent == [] {
      assert sent + [last] == [last];
    } else {
      FirstDestinationSnoc(sent[1..], last, o);
      assert (sent + [last])[1..] == sent[1..] + [last];
    }
  }

  /** When a bare send keeps the maps inverse: just when no other real destination is known by this
      original. */
  lemma SendKeepsInverse(a: AssociationView, original: SocketAddress, destination: SocketAddress)
    requires Inverse(a)
    ensures Inverse(Record(a, original, destination))
       <==> forall r :: r in a.realToOriginal && r != destination ==> a.realToOriginal[r] != original
  {
    var b := Record(a, original, destination);
    if Inverse(b) {
      forall r | r in a.realToOriginal && r != destination
        ensures a.realToOriginal[r] != original
      {
        assert r in b.realToOriginal && b.realToOriginal[r] == a.realToOriginal[r];
      }
    }
  }

  lemma RecordMatches(a: AssociationView, original: SocketAddress, destination: SocketAddress)
    requires MatchesHistory(a) && Get(a.originalToReal, original) in {None, Some(destination)}
    ensures MatchesHistory(Record(a, original, destination))
  {
    var b := Record(a, original, destination);
    var last := Sent(original, destination);
    assert b.sent[..|b.sent| - 1] == a.sent;
    forall o
      ensures Get(b.originalToReal, o) == FirstDestination(b.sent, o)
    {
      FirstDestinationSnoc(a.sent, last, o);
      assert Get(a.originalToReal, o) == FirstDestination(a.sent, o);
    }
    forall r
      ensures Get(b.realToOriginal, r) == LatestOriginal(b.sent, r)
    {
      assert Get(a.realToOriginal, r) == LatestOriginal(a.sent, r);
    }
    forall i | 0 <= i < |b.sent|
      ensures FirstDestination(b.sent, b.sent[i].original) == Some(b.sent[i].destination)
    {
      FirstDestinationSnoc(a.sent, last, b.sent[i].original);
      assert Get(a.originalToReal, original) == FirstDestination(a.sent, original);
    }
  }

  lemma RecordConsistent(a: AssociationView, original: SocketAddress, destination: SocketAddress)
    requires Consistent(a) && Get(a.originalToReal, original) in {None, Some(destination)}
    ensures Consistent(Record(a, original, destination))
  {
    RecordMatches(a, original, destination);
    SendKeepsInverse(a, original, destination);
  }

  lemma ForwardKeepsInv(s: State, written: bool)
    requires Inv(s) && s.loop.Resolved?
    ensures Inv(ForwardStep(s, s.loop.source, s.loop.original, s.loop.destination, written))
  {
    var a := AssociationFor(s, s.loop.source);
    if !a.ended {
      RecordConsistent(a, s.loop.original, s.loop.destination);
    }
  }

  lemma SameMapsConsistent(a: AssociationView, b: AssociationView)
    requires Consistent(a)
    requires b.realToOriginal == a.realToOriginal && b.originalToReal == a.originalToReal && b.sent == a.sent
    ensures Consistent(b)
  {
  }

  lemma SocketKeepsInv(s: State, original: SocketAddress)
    requires Inv(s)
    ensures Inv(WithSocket(s, original))
  {
  }

  /** Changing an association but not its maps. */
  lemma SameMapsKeepsInv(s: State, source: SocketAddress, b: AssociationView)
    requires Inv(s) && source in s.associations && SocketsOk(s, b)
    requires b.realToOriginal == s.associations[source].realToOriginal
    requires b.originalToReal == s.associations[source].originalToReal && b.sent == s.associations[source].sent
    ensures Inv(s.(associations := s.associations[source := b]))
  {
    SameMapsConsistent(s.associations[source], b);
  }

  lemma ReplyKeepsInv(s: State, source: SocketAddress, from: SocketAddress, binds: bool, written: bool)
    requires Inv(s) && source in s.associations
    ensures Inv(ReplyStep(s, source, from, binds, written))
  {
    var a := s.associations[source];
    var original := Presented(a, from);
    if original !in s.sockets && !binds {
      SameMapsKeepsInv(s, source, Ended(a));
    } else {
      var t := WithSocket(s, original);
      SocketKeepsInv(s, original);
      SameMapsKeepsInv(t, source,
        if written then a.(related := a.related[original := t.sockets[original]]) else Ended(a));
    }
  }

  lemma ExpireKeepsInv(s: State, source: SocketAddress, kept: set<SocketAddress>)
    requires Inv(s) && Enabled(s, Expire(source, kept))
    ensures Inv(Next(s, Expire(source, kept)))
  {
  }

  lemma BreakKeepsInv(s: State, cause: Break)
    requires Inv(s) && BreakEnabled(s, cause)
    ensures Inv(BreakStep(s, cause))
  {
    var t := BreakStep(s, cause);
    forall source | source in t.associations
      ensures Consistent(t.associations[source]) && SocketsOk(t, t.associations[source])
    {
      assert source in s.associations ==> t.associations[source] == s.associations[source];
    }
  }

  lemma StepKeepsInv(s: State, e: Event)
    requires Inv(s) && Enabled(s, e)
    ensures Inv(Next(s, e))
  {
    match e {
      case Receive(_, _, _) =>
      case Forward(written) => ForwardKeepsInv(s, written);
      case Breaks(cause) => BreakKeepsInv(s, cause);
      case Reply(source, from, binds, written) => ReplyKeepsInv(s, source, from, binds, written);
      case End(source) => SameMapsConsistent(s.associations[source], Ended(s.associations[source]));
      case Expire(source, kept) => ExpireKeepsInv(s, source, kept);
    }
  }

  lemma {:induction false} RunKeepsInv(es: seq<Event>)
    requires ValidRun(es)
    ensures Inv(After(es))
  {
    if es != [] {
      RunKeepsInv(es[..|es| - 1]);
      StepKeepsInv(After(es[..|es| - 1]), es[|es| - 1]);
    }
  }

  // ---- What it means ----

  /** In every run, every association's maps are one-sided inverses; each original goes to the one
      real destination its first datagram went to, for as long as the association lives. */
  lemma TranslationConsistent(es: seq<Event>, source: SocketAddress)
    requires ValidRun(es) && source in After(es).associations
    ensures var a := After(es).associations[source];
            forall r :: r in a.realToOriginal ==>
              a.realToOriginal[r] in a.originalToReal && a.originalToReal[a.realToOriginal[r]] == r
    ensures var a := After(es).associations[source];
            forall i, j :: 0 <= i < |a.sent| && 0 <= j < |a.sent| && a.sent[i].original == a.sent[j].original
              ==> a.sent[i].destination == a.sent[j].destination
    ensures var a := After(es).associations[source];
            forall i :: 0 <= i < |a.sent| ==> Get(a.originalToReal, a.sent[i].original) == Some(a.sent[i].destination)
  {
    RunKeepsInv(es);
    var a := After(es).associations[source];
    assert Consistent(a);
    forall i, j | 0 <= i < |a.sent| && 0 <= j < |a.sent| && a.sent[i].original == a.sent[j].original
      ensures a.sent[i].destination == a.sent[j].destination
    {
      assert FirstDestination(a.sent, a.sent[i].original) == Some(a.sent[i].destination);
      assert FirstDestination(a.sent, a.sent[j].original) == Some(a.sent[j].destination);
    }
    forall i | 0 <= i < |a.sent|
      ensures Get(a.originalToReal, a.sent[i].original) == Some(a.sent[i].destination)
    {
      assert FirstDestination(a.sent, a.sent[i].original) == Some(a.sent[i].destination);
    }
  }

  /** A reply is shown to come from the original the client used last to reach its sender, and from
      the sender itself just when the client never did; it leaves through a socket bound there, the
      same one for every association. */
  lemma ReplyPresented(es: seq<Event>, source: SocketAddress, from: SocketAddress, binds: bool)
    requires ValidRun(es) && Enabled(After(es), Reply(source, from, binds, true))
    ensures var s := After(es);
            Presented(s.associations[source], from) ==
              match LatestOriginal(s.associations[source].sent, from) { case Some(o) => o case None => from }
    ensures var s := After(es);
            var t := Next(s, Reply(source, from, binds, true));
            var original := Presented(s.associations[source], from);
            !t.associations[source].ended ==>
              && original in t.associations[source].related
              && t.associations[source].related[original].bound == original
              && forall other :: other in t.associations && original in t.associations[other].related ==>
                   t.associations[other].related[original] == t.associations[source].related[original]
  {
    RunKeepsInv(es);
    var s := After(es);
    var e := Reply(source, from, binds, true);
    var t := Next(s, e);
    StepKeepsInv(s, e);
    assert Consistent(s.associations[source]);
    assert Get(s.associations[source].realToOriginal, from) == LatestOriginal(s.associations[source].sent, from);
    var original := Presented(s.associations[source], from);
    forall other | other in t.associations && original in t.associations[other].related
      ensures original in t.sockets && t.associations[other].related[original] == t.sockets[original]
    {
      assert SocketsOk(t, t.associations[other]);
    }
  }

  /** Nothing after step `k` removes the association of `source` or reaches `destination` through it
      by another original. */
  ghost predicate Undisturbed(
      es: seq<Event>, k: nat, source: SocketAddress, original: SocketAddress, destination: SocketAddress)
    requires ValidRun(es)
  {
    |es| <= k || (
      var before, last := After(es[..|es| - 1]), es[|es| - 1];
      && !(last.Expire? && last.source == source)
      && (last.Forward? && before.loop.source == source && before.loop.destination == destination
          ==> before.loop.original == original)
      && Undisturbed(es[..|es| - 1], k, source, original, destination))
  }

  /** There and back: once a datagram for `original` is forwarded, replies from where it went are shown
      to come from `original`, whatever else is sent, answered, ended or removed, until the client
      reaches that destination by another original or the association is removed. */
  lemma {:induction false} ThereAndBack(es: seq<Event>, k: nat)
    requires ValidRun(es) && k < |es| && ValidRun(es[..k]) && es[k].Forward? && Enabled(After(es[..k]), es[k])
    requires !AssociationFor(After(es[..k]), After(es[..k]).loop.source).ended
    requires var loop := After(es[..k]).loop;
             Undisturbed(es, k + 1, loop.source, loop.original, loop.destination)
    ensures var loop := After(es[..k]).loop;
            loop.source in After(es).associations
            && Presented(After(es).associations[loop.source], loop.destination) == loop.original
            && Associated(After(es), loop.source, loop.original) == Some(loop.destination)
  {
    var front := es[..|es| - 1];
    if k < |es| - 1 {
      assert front[..k] == es[..k];
      ThereAndBack(front, k);
      RunKeepsInv(front);
      KeepsPresenting(After(front), es[|es| - 1], After(es[..k]).loop.source, After(es[..k]).loop.original,
                      After(es[..k]).loop.destination);
    } else {
      assert es[..k] == front;
    }
  }

  /** This association reaches `destination` by `original`, and shows its replies to come from there. */
  ghost predicate Presents(s: State, source: SocketAddress, original: SocketAddress, destination: SocketAddress) {
    && source in s.associations && destination in s.associations[source].realToOriginal
    && s.associations[source].realToOriginal[destination] == original
    && Associated(s, source, original) == Some(destination)
  }

  lemma ForwardKeepsPresenting(
      s: State, written: bool, source: SocketAddress, original: SocketAddress, destination: SocketAddress)
    requires Inv(s) && s.loop.Resolved? && Presents(s, source, original, destination)
    requires s.loop.source == source && s.loop.destination == destination ==> s.loop.original == original
    ensures Presents(Next(s, Forward(written)), source, original, destination)
  {
    assert s.loop.source == source ==> Consistent(s.associations[source]);
  }

  lemma KeepsPresenting(
      s: State, e: Event, source: SocketAddress, original: SocketAddress, destination: SocketAddress)
    requires Inv(s) && Enabled(s, e) && Presents(s, source, original, destination)
    requires !(e.Expire? && e.source == source)
    requires e.Forward? && s.loop.source == source && s.loop.destination == destination ==> s.loop.original == original
    ensures Presents(Next(s, e), source, original, destination)
  {
    if e.Forward? {
      ForwardKeepsPresenting(s, e.written, source, original, destination);
    }
  }

  /** Routing has no say once an original is associated: the datagram goes where the first one went. */
  lemma AssociatedSkipsRouting(
      es: seq<Event>, source: SocketAddress, original: SocketAddress, resolved: Option<SocketAddress>)
    requires ValidRun(es) && source in After(es).associations
    requires FirstDestination(After(es).associations[source].sent, original).Some?
    ensures LookUp(After(es), source, original, resolved)
         == Resolved(source, original, FirstDestination(After(es).associations[source].sent, original).value)
    ensures !Enabled(After(es), Breaks(ResolvePanics(source, original)))
  {
    RunKeepsInv(es);
    assert Consistent(After(es).associations[source]);
    assert Get(After(es).associations[source].originalToReal, original)
        == FirstDestination(After(es).associations[source].sent, original);
  }

  /** Forwarding goes well: the datagram can be written, and its association is not one that ended and
      is still to be removed. */
  predicate ForwardsWell(s: State, written: bool) {
    s.loop.Resolved? && written && !(s.loop.source in s.associations && s.associations[s.loop.source].ended)
  }

  lemma PrefixValid(es: seq<Event>, k: nat)
    requires ValidRun(es) && k <= |es|
    ensures ValidRun(es[..k])
    decreases |es|
  {
    if k == |es| {
      assert es[..k] == es;
    } else {
      PrefixValid(es[..|es| - 1], k);
      assert es[..|es| - 1][..k] == es[..k];
    }
  }

  /** Event `k` of the run does not break the loop, and if it forwards a datagram that goes well. */
  ghost predicate WellAt(es: seq<Event>, k: nat)
    requires ValidRun(es) && k < |es|
  {
    PrefixValid(es, k);
    !es[k].Breaks? && (es[k].Forward? ==> ForwardsWell(After(es[..k]), es[k].written))
  }

  lemma StepStops(s: State, e: Event)
    requires Enabled(s, e)
    ensures Next(s, e).loop.Stopped? <==>
              s.loop.Stopped? || e.Breaks? || (e.Forward? && !ForwardsWell(s, e.written))
  {
  }

  /** Over every run: the receive loop is alive at the end if and only if nothing broke it and every
      forwarding went well. */
  lemma {:induction false} LoopAliveExactly(es: seq<Event>)
    requires ValidRun(es)
    ensures !After(es).loop.Stopped? <==> forall k :: 0 <= k < |es| ==> WellAt(es, k)
  {
    if es != [] {
      var n := |es| - 1;
      var front := es[..n];
      LoopAliveExactly(front);
      StepStops(After(front), es[n]);
      forall k | 0 <= k < n
        ensures WellAt(es, k) <==> WellAt(front, k)
      {
        assert front[..k] == es[..k];
      }
      assert WellAt(es, n) <==> !es[n].Breaks? && (es[n].Forward? ==> ForwardsWell(After(front), es[n].written));
    }
  }

  /** A datagram that arrives between an association's end and its removal stops the loop. */
  lemma LateDatagramStopsLoop(source: SocketAddress, original: SocketAddress, destination: SocketAddress)
    ensures var es := [Receive(source, original, Some(destination)), Forward(true), End(source),
                       Receive(source, original, None), Forward(true)];
            ValidRun(es) && After(es).loop.Stopped?
  {
    var es := [Receive(source, original, Some(destination)), Forward(true), End(source),
               Receive(source, original, None), Forward(true)];
    RunPrefix(es, 1);
    RunPrefix(es, 2);
    RunPrefix(es, 3);
    RunPrefix(es, 4);
    RunPrefix(es, 5);
  }

  lemma RunPrefix(es: seq<Event>, k: nat)
    requires 0 < k <= |es| && ValidRun(es[..k - 1]) && Enabled(After(es[..k - 1]), es[k - 1])
    ensures ValidRun(es[..k]) && After(es[..k]) == Next(After(es[..k - 1]), es[k - 1])
    ensures es[..|es|] == es
  {
    assert es[..k][..k - 1] == es[..k - 1];
  }

  /** An association's whole life: a datagram goes out, its reply comes back from the original the client aimed
      at, the association ends and is removed, and the socket stays as long as something holds it. */
  lemma WholeLife(source: SocketAddress, original: SocketAddress, destination: SocketAddress)
    ensures var es := [Receive(source, original, Some(destination)), Forward(true),
                       Reply(source, destination, true, true), End(source), Expire(source, {original})];
            var socket := Socket(0, original);
            && ValidRun(es) && ValidRun(es[..3]) && source in After(es[..3]).associations
            && After(es[..3]).associations[source].related == map[original := socket]
            && After(es) == State(map[], map[original := socket], 1, Idle)
  {
    var es := [Receive(source, original, Some(destination)), Forward(true),
               Reply(source, destination, true, true), End(source), Expire(source, {original})];
    var socket := Socket(0, original);
    var sent := Record(NEW_ASSOCIATION, original, destination);
    var answered := sent.(related := map[original := socket]);
    RunPrefix(es, 1);
    assert After(es[..1]) == State(map[], map[], 0, Resolved(source, original, destination));
    RunPrefix(es, 2);
    assert After(es[..2]) == State(map[source := sent], map[], 0, Idle);
    RunPrefix(es, 3);
    assert After(es[..3]) == State(map[source := answered], map[original := socket], 1, Idle);
    RunPrefix(es, 4);
    assert After(es[..4]) == State(map[source := Ended(answered)], map[original := socket], 1, Idle);
    RunPrefix(es, 5);
    assert map[source := Ended(answered)] - {source} == map[];
  }
}
