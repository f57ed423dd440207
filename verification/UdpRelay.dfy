/** The UDP receive loop left alone, one datagram after the other: what it sends where, told from the
    datagrams and what routing answered. */
module UdpRelay {
  import opened Prelude
  import opened Addresses
  import opened UdpNat

  /** Sending once a destination is known: it goes on, or ends the loop. */
  function SendStep(
      s: State, source: SocketAddress, original: SocketAddress, destination: SocketAddress, opens: bool,
      written: bool): State
  {
    var t := s.(loop := Resolved(source, original, destination));
    Next(t, if source !in s.associations && !opens then Breaks(OpenPanics) else Forward(written))
  }

  /** What routing would answer; it is asked only when the original is not associated. */
  datatype Routing = Answers(destination: Option<SocketAddress>) | Panics

  datatype Datagram = Datagram(
    source: SocketAddress, original: SocketAddress, routing: Routing, opens: bool, written: bool)

  /** What waiting for the next datagram comes to. */
  datatype Incoming = Received(datagram: Datagram) | ReceiveFailed | LoopDropped

  /** What one datagram does when nothing comes between lookup and send. */
  function Relayed(s: State, d: Datagram): State
    requires s.loop.Idle?
  {
    var known := Associated(s, d.source, d.original);
    if known.None? && d.routing.Panics? then Next(s, Breaks(ResolvePanics(d.source, d.original)))
    else
      var destination := if known.Some? then known else d.routing.destination;
      if destination.Some? then SendStep(s, d.source, d.original, destination.value, d.opens, d.written) else s
  }

  function RelayedNext(s: State, i: Incoming): State
    requires s.loop.Idle?
  {
    match i
    case Received(d) => Relayed(s, d)
    case ReceiveFailed => Next(s, Breaks(ReceiveError))
    case LoopDropped => Next(s, Breaks(Cancelled(false)))
  }

  function RelayedAll(s: State, incoming: seq<Incoming>): State {
    if incoming == [] then s
    else
      var t := RelayedAll(s, incoming[..|incoming| - 1]);
      if t.loop.Idle? then RelayedNext(t, incoming[|incoming| - 1]) else t
  }

  lemma {:induction false} StoppedStays(s: State, incoming: seq<Incoming>, i: nat)
    requires i <= |incoming|
    requires i < |incoming| ==> !RelayedAll(s, incoming[..i]).loop.Idle?
    ensures RelayedAll(s, incoming) == RelayedAll(s, incoming[..i])
    decreases |incoming| - i
  {
    assert incoming[..|incoming|] == incoming;
    if i < |incoming| {
      assert incoming[..i + 1][..i] == incoming[..i];
      StoppedStays(s, incoming, i + 1);
    }
  }

  lemma Extended(es: seq<Event>, e: Event) returns (more: seq<Event>)
    requires ValidRun(es) && Enabled(After(es), e)
    ensures more == es + [e] && ValidRun(more) && After(more) == Next(After(es), e)
  {
    more := es + [e];
    assert more[..|more| - 1] == es;
  }

  /** The receptions of a run, with what routing answered. */
  function Receptions(es: seq<Event>): seq<Event> {
    if es == [] then []
    else Receptions(es[..|es| - 1]) + if es[|es| - 1].Receive? then [es[|es| - 1]] else []
  }

  function ReceptionOf(i: Incoming): seq<Event> {
    if i.Received? then
      var d := i.datagram;
      [Receive(d.source, d.original, if d.routing.Answers? then d.routing.destination else None)]
    else []
  }

  function ReceptionsOf(incoming: seq<Incoming>): seq<Event> {
    if incoming == [] then []
    else ReceptionsOf(incoming[..|incoming| - 1]) + ReceptionOf(incoming[|incoming| - 1])
  }

  lemma ReceptionsSnoc(es: seq<Event>, e: Event)
    ensures Receptions(es + [e]) == Receptions(es) + if e.Receive? then [e] else []
  {
    assert (es + [e])[..|es|] == es;
  }

  lemma BreakIsRun(es: seq<Event>, cause: Break) returns (more: seq<Event>)
    requires ValidRun(es) && BreakEnabled(After(es), cause)
    ensures ValidRun(more) && After(more) == BreakStep(After(es), cause) && Receptions(more) == Receptions(es)
  {
    more := Extended(es, Breaks(cause));
    ReceptionsSnoc(es, Breaks(cause));
  }

  lemma LookupIsRun(es: seq<Event>, d: Datagram, answer: Option<SocketAddress>) returns (more: seq<Event>)
    requires ValidRun(es) && After(es).loop.Idle?
    ensures ValidRun(more) && Receptions(more) == Receptions(es) + [Receive(d.source, d.original, answer)]
    ensures After(more) == After(es).(loop := LookUp(After(es), d.source, d.original, answer))
  {
    more := Extended(es, Receive(d.source, d.original, answer));
    ReceptionsSnoc(es, Receive(d.source, d.original, answer));
  }

  lemma SendIsRun(es: seq<Event>, d: Datagram) returns (more: seq<Event>)
    requires ValidRun(es) && After(es).loop.Resolved?
    ensures var s := After(es);
            var e := if s.loop.source !in s.associations && !d.opens then Breaks(OpenPanics) else Forward(d.written);
            ValidRun(more) && After(more) == Next(s, e) && Receptions(more) == Receptions(es)
  {
    var s := After(es);
    var e := if s.loop.source !in s.associations && !d.opens then Breaks(OpenPanics) else Forward(d.written);
    more := Extended(es, e);
    ReceptionsSnoc(es, e);
  }

  lemma DatagramIsRun(es: seq<Event>, d: Datagram) returns (more: seq<Event>)
    requires ValidRun(es) && After(es).loop.Idle?
    requires Associated(After(es), d.source, d.original).Some? || d.routing.Answers?
    ensures ValidRun(more) && After(more) == Relayed(After(es), d)
    ensures Receptions(more) == Receptions(es) + ReceptionOf(Received(d))
  {
    more := LookupIsRun(es, d, if d.routing.Answers? then d.routing.destination else None);
    if After(more).loop.Resolved? {
      more := SendIsRun(more, d);
    }
  }

  lemma NextIsRun(es: seq<Event>, i: Incoming) returns (more: seq<Event>)
    requires ValidRun(es) && After(es).loop.Idle?
    ensures ValidRun(more) && After(more) == RelayedNext(After(es), i)
    ensures Receptions(more) <= Receptions(es) + ReceptionOf(i)
    ensures After(more).loop.Idle? ==> Receptions(more) == Receptions(es) + ReceptionOf(i)
  {
    if i.ReceiveFailed? {
      more := BreakIsRun(es, ReceiveError);
    } else if i.LoopDropped? {
      more := BreakIsRun(es, Cancelled(false));
    } else {
      var d := i.datagram;
      if Associated(After(es), d.source, d.original).None? && d.routing.Panics? {
        more := BreakIsRun(es, ResolvePanics(d.source, d.original));
      } else {
        more := DatagramIsRun(es, d);
      }
    }
  }

  /** The loop left alone is one of the runs of the step system, with the datagrams received and routing's
      own answers as its receptions, all of them while the loop is alive. So all that holds of every run
      holds of it. */
  lemma {:induction false} RelayedIsRun(incoming: seq<Incoming>) returns (es: seq<Event>)
    ensures ValidRun(es) && After(es) == RelayedAll(INITIAL, incoming)
    ensures Receptions(es) <= ReceptionsOf(incoming)
    ensures After(es).loop.Idle? ==> Receptions(es) == ReceptionsOf(incoming)
  {
    if incoming == [] {
      es := [];
    } else {
      es := RelayedIsRun(incoming[..|incoming| - 1]);
      if After(es).loop.Idle? {
        es := NextIsRun(es, incoming[|incoming| - 1]);
      }
    }
  }

  // ---- Where the datagrams go ----

  /** Routing would answer this datagram's original, and does so for a new one. */
  predicate Answers(i: Incoming, source: SocketAddress, original: SocketAddress) {
    && i.Received? && i.datagram.source == source && i.datagram.original == original
    && i.datagram.routing.Answers? && i.datagram.routing.destination.Some?
  }

  /** The first answer for this source and original. */
  function FirstAnswer(
      incoming: seq<Incoming>, source: SocketAddress, original: SocketAddress): (r: Option<SocketAddress>)
    ensures r.None? <==> forall i :: 0 <= i < |incoming| ==> !Answers(incoming[i], source, original)
    ensures r.Some? ==>
              exists i :: 0 <= i < |incoming| && Answers(incoming[i], source, original)
                          && r == incoming[i].datagram.routing.destination
                          && forall j :: 0 <= j < i ==> !Answers(incoming[j], source, original)
  {
    if incoming == [] then None
    else
      var front, last := incoming[..|incoming| - 1], incoming[|incoming| - 1];
      assert incoming == front + [last];
      var earlier := FirstAnswer(front, source, original);
      if earlier.Some? then earlier
      else if Answers(last, source, original) then last.datagram.routing.destination
      else None
  }

  /** What the datagrams of a source become: each goes where the first answer for its original said; those
      with no answer so far are left out. */
  function Outgoing(incoming: seq<Incoming>, source: SocketAddress): seq<Sent> {
    if incoming == [] then []
    else
      var last := incoming[|incoming| - 1];
      Outgoing(incoming[..|incoming| - 1], source)
      + if last.Received? && last.datagram.source == source then SentFor(incoming, last.datagram) else []
  }

  function SentFor(incoming: seq<Incoming>, d: Datagram): seq<Sent> {
    var answer := FirstAnswer(incoming, d.source, d.original);
    if answer.Some? then [Sent(d.original, answer.value)] else []
  }

  /** After `before`, this ends the loop: nothing is received any more, or routing panics on an original it
      is asked for, or there is a destination and the socket of a first datagram is refused or the
      datagram cannot be written. */
  predicate Stops(before: seq<Incoming>, i: Incoming) {
    !i.Received? ||
    var d := i.datagram;
    var known := FirstAnswer(before, d.source, d.original).Some?;
    || (!known && d.routing.Panics?)
    || ((known || (d.routing.Answers? && d.routing.destination.Some?))
        && ((Outgoing(before, d.source) == [] && !d.opens) || !d.written))
  }

  /** The state says what went out. */
  ghost predicate Tells(s: State, incoming: seq<Incoming>) {
    && (forall source :: source in s.associations <==> Outgoing(incoming, source) != [])
    && (forall source :: source in s.associations ==>
          s.associations[source].sent == Outgoing(incoming, source) && !s.associations[source].ended)
    && (forall source, original :: Associated(s, source, original) == FirstAnswer(incoming, source, original))
  }

  lemma TellsNothing()
    ensures Tells(INITIAL, [])
  {
  }

  lemma AnswerSnoc(front: seq<Incoming>, last: Incoming, source: SocketAddress, original: SocketAddress)
    ensures FirstAnswer(front + [last], source, original) ==
            if FirstAnswer(front, source, original).Some? then FirstAnswer(front, source, original)
            else if Answers(last, source, original) then last.datagram.routing.destination
            else None
  {
    assert (front + [last])[..|front|] == front;
  }

  lemma OutgoingSnoc(front: seq<Incoming>, last: Incoming, source: SocketAddress)
    ensures Outgoing(front + [last], source) == Outgoing(front, source)
            + if last.Received? && last.datagram.source == source then SentFor(front + [last], last.datagram) else []
  {
    assert (front + [last])[..|front|] == front;
  }

  /** A datagram routing has no answer for changes nothing. */
  lemma LeftOutTells(s: State, front: seq<Incoming>, d: Datagram)
    requires Tells(s, front) && FirstAnswer(front, d.source, d.original).None?
    requires !Answers(Received(d), d.source, d.original)
    ensures Tells(s, front + [Received(d)])
  {
    var i := Received(d);
    forall source, original
      ensures FirstAnswer(front + [i], source, original) == FirstAnswer(front, source, original)
    {
      AnswerSnoc(front, i, source, original);
    }
    forall source
      ensures Outgoing(front + [i], source) == Outgoing(front, source)
    {
      OutgoingSnoc(front, i, source);
    }
  }

  function Destination(front: seq<Incoming>, d: Datagram): Option<SocketAddress> {
    FirstAnswer(front + [Received(d)], d.source, d.original)
  }

  lemma SentAnswers(s: State, front: seq<Incoming>, d: Datagram, source: SocketAddress, original: SocketAddress)
    requires Tells(s, front) && Destination(front, d).Some?
    ensures var a := AssociationFor(s, d.source);
            var t := s.(associations := s.associations[d.source := Record(a, d.original, Destination(front, d).value)]);
            Associated(t, source, original) == FirstAnswer(front + [Received(d)], source, original)
  {
    AnswerSnoc(front, Received(d), source, original);
    AnswerSnoc(front, Received(d), d.source, d.original);
    assert Associated(s, source, original) == FirstAnswer(front, source, original);
  }

  lemma SentOutgoing(s: State, front: seq<Incoming>, d: Datagram, source: SocketAddress)
    requires Tells(s, front) && Destination(front, d).Some?
    ensures var a := AssociationFor(s, d.source);
            var t := s.associations[d.source := Record(a, d.original, Destination(front, d).value)];
            && (source in t <==> Outgoing(front + [Received(d)], source) != [])
            && (source in t ==> t[source].sent == Outgoing(front + [Received(d)], source) && !t[source].ended)
  {
    OutgoingSnoc(front, Received(d), source);
    assert source in s.associations <==> Outgoing(front, source) != [];
  }

  lemma SentTells(s: State, front: seq<Incoming>, d: Datagram, t: State)
    requires Tells(s, front) && Destination(front, d).Some?
    requires t.associations ==
             s.associations[d.source :=
               Record(AssociationFor(s, d.source), d.original, Destination(front, d).value)]
    ensures Tells(t, front + [Received(d)])
  {
    forall source, original
      ensures Associated(t, source, original) == FirstAnswer(front + [Received(d)], source, original)
    {
      SentAnswers(s, front, d, source, original);
    }
    forall source
      ensures source in t.associations <==> Outgoing(front + [Received(d)], source) != []
      ensures source in t.associations ==>
                t.associations[source].sent == Outgoing(front + [Received(d)], source)
                && !t.associations[source].ended
    {
      SentOutgoing(s, front, d, source);
    }
  }

  /** Where the loop sends a datagram is where the first answer for it says. */
  lemma DestinationIs(s: State, front: seq<Incoming>, d: Datagram)
    requires Tells(s, front)
    ensures var known := Associated(s, d.source, d.original);
            var asked := if d.routing.Answers? then d.routing.destination else None;
            Destination(front, d) == if known.Some? then known else asked
  {
    AnswerSnoc(front, Received(d), d.source, d.original);
    assert Associated(s, d.source, d.original) == FirstAnswer(front, d.source, d.original);
  }

  lemma SendStepIs(
      s: State, source: SocketAddress, original: SocketAddress, destination: SocketAddress, opens: bool, written: bool)
    requires source in s.associations ==> !s.associations[source].ended
    ensures SendStep(s, source, original, destination, opens, written) ==
            if source !in s.associations && !opens then s.(loop := Stopped)
            else s.(associations := s.associations[source := Record(AssociationFor(s, source), original, destination)],
                    loop := if written then Idle else Stopped)
  {
  }

  lemma DatagramSent(s: State, front: seq<Incoming>, d: Datagram)
    requires Tells(s, front) && s.loop.Idle? && Destination(front, d).Some?
    requires Relayed(s, d) == SendStep(s, d.source, d.original, Destination(front, d).value, d.opens, d.written)
    ensures Relayed(s, d).loop.Idle? <==> !((Outgoing(front, d.source) == [] && !d.opens) || !d.written)
    ensures Relayed(s, d).loop.Idle? ==> Tells(Relayed(s, d), front + [Received(d)])
  {
    SendStepIs(s, d.source, d.original, Destination(front, d).value, d.opens, d.written);
    assert d.source in s.associations <==> Outgoing(front, d.source) != [];
    if Relayed(s, d).loop.Idle? {
      SentTells(s, front, d, Relayed(s, d));
    }
  }

  lemma DatagramTells(s: State, front: seq<Incoming>, d: Datagram)
    requires Tells(s, front) && s.loop.Idle?
    ensures Relayed(s, d).loop.Idle? <==> !Stops(front, Received(d))
    ensures Relayed(s, d).loop.Idle? ==> Tells(Relayed(s, d), front + [Received(d)])
  {
    DestinationIs(s, front, d);
    var known := Associated(s, d.source, d.original);
    assert known == FirstAnswer(front, d.source, d.original);
    if Destination(front, d).Some? {
      DatagramSent(s, front, d);
    } else {
      LeftOutTells(s, front, d);
    }
  }

  ghost predicate NoneStops(incoming: seq<Incoming>) {
    forall k :: 0 <= k < |incoming| ==> !Stops(incoming[..k], incoming[k])
  }

  lemma NoneStopsSnoc(front: seq<Incoming>, last: Incoming)
    ensures NoneStops(front + [last]) <==> NoneStops(front) && !Stops(front, last)
  {
    var incoming := front + [last];
    assert incoming[..|front|] == front;
    assert forall k :: 0 <= k < |front| ==> incoming[..k] == front[..k] && incoming[k] == front[k];
  }

  lemma NextTells(s: State, front: seq<Incoming>, i: Incoming)
    requires Tells(s, front) && s.loop.Idle?
    ensures RelayedNext(s, i).loop.Idle? <==> !Stops(front, i)
    ensures RelayedNext(s, i).loop.Idle? ==> Tells(RelayedNext(s, i), front + [i])
  {
    if i.Received? {
      DatagramTells(s, front, i.datagram);
    }
  }

  lemma RelayedSnoc(s: State, front: seq<Incoming>, last: Incoming)
    ensures var t := RelayedAll(s, front);
            RelayedAll(s, front + [last]) == if t.loop.Idle? then RelayedNext(t, last) else t
  {
    assert (front + [last])[..|front|] == front;
  }

  /** For every sequence of datagrams: while the loop is alive, every source's datagrams have gone out in
      order, each where the first answer for its original said; and it is alive as long as none of them
      stops it. */
  lemma {:induction false} RelaysAsAnswered(incoming: seq<Incoming>)
    ensures RelayedAll(INITIAL, incoming).loop.Idle? <==> NoneStops(incoming)
    ensures NoneStops(incoming) ==> Tells(RelayedAll(INITIAL, incoming), incoming)
  {
    if incoming == [] {
      TellsNothing();
    } else {
      var front, last := incoming[..|incoming| - 1], incoming[|incoming| - 1];
      assert incoming == front + [last];
      RelaysAsAnswered(front);
      RelayedSnoc(INITIAL, front, last);
      NoneStopsSnoc(front, last);
      if NoneStops(front) {
        NextTells(RelayedAll(INITIAL, front), front, last);
      }
    }
  }
}
