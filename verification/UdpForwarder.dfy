/** The UDP forwarder and its associations, updated in place, step for step as `UdpNat` says. */
module UdpForwarding {
  import opened Prelude
  import opened Addresses
  import opened UdpNat
  import opened UdpRelay

  class Association {
    var realToOriginal: Destinations
    var originalToReal: Destinations
    var related: map<SocketAddress, Socket>
    var ended: bool
    ghost var sent: seq<Sent>

    constructor ()
      ensures View() == NEW_ASSOCIATION
    {
      realToOriginal, originalToReal, related, ended, sent := map[], map[], map[], false, [];
    }

    ghost function View(): AssociationView
      reads this
    {
      AssociationView(realToOriginal, originalToReal, related, ended, sent)
    }

    /** Fails before touching the maps when the task is over, and after it when the socket does. */
    method Send(original: SocketAddress, destination: SocketAddress, written: bool) returns (ok: bool)
      modifies this
      ensures ok == (written && !old(ended))
      ensures View() == if old(ended) then old(View()) else Record(old(View()), original, destination)
    {
      if ended {
        return false;
      }
      realToOriginal := realToOriginal[destination := original];
      originalToReal := originalToReal[original := destination];
      sent := sent + [Sent(original, destination)];
      ok := written;
    }

    method End()
      modifies this
      ensures View() == Ended(old(View()))
    {
      ended, related := true, map[];
    }

    /** A reply was written to `socket`, or there was none, or writing failed and ends the task. */
    method Answered(original: SocketAddress, socket: Option<Socket>, written: bool)
      modifies this
      ensures View() == if socket.None? || !written then Ended(old(View()))
                        else old(View()).(related := old(related)[original := socket.value])
    {
      if socket.None? {
        End();
        return;
      }
      related := related[original := socket.value];
      if !written {
        End();
      }
    }
  }

  /** `ForwardStep` as two updates of the same entry. */
  lemma ForwardByUpdates(
      s: State, source: SocketAddress, original: SocketAddress, destination: SocketAddress, written: bool)
    ensures var a := AssociationFor(s, source);
            var b := if a.ended then a else Record(a, original, destination);
            var loop := if written && !a.ended then Idle else Stopped;
            var t := State(s.associations[source := a][source := b], s.sockets, s.made, loop);
            ForwardStep(s, source, original, destination, written) == t
  {
  }

  class UdpForwarder {
    var associations: map<SocketAddress, Association>
    var sockets: map<SocketAddress, Socket>
    var made: nat

    /** Every source has an association of its own. */
    ghost predicate Valid()
      reads this
    {
      forall s, t :: s in associations && t in associations && s != t ==> associations[s] != associations[t]
    }

    ghost function View(loop: Loop): State
      reads this, associations.Values
    {
      State(map source | source in associations :: associations[source].View(), sockets, made, loop)
    }

    constructor ()
      ensures Valid() && View(Idle) == INITIAL
    {
      associations, sockets, made := map[], map[], 0;
    }

    method GetAssociatedDestination(source: SocketAddress, original: SocketAddress)
      returns (destination: Option<SocketAddress>)
      ensures destination == Associated(View(Idle), source, original)
    {
      if source in associations {
        destination := Get(associations[source].originalToReal, original);
      } else {
        destination := None;
      }
    }

    /** Updating one association in place updates one entry of the view. */
    twostate lemma OneChanged(source: SocketAddress)
      requires old(Valid()) && associations == old(associations) && source in associations
      requires forall s :: s in associations && s != source ==> associations[s].View() == old(associations[s].View())
      ensures View(Idle).associations == old(View(Idle)).associations[source := associations[source].View()]
    {
    }

    lemma SameButLoop(loop: Loop)
      ensures View(loop) == State(View(Idle).associations, sockets, made, loop)
    {
    }

    /** `entry(source).or_insert_with(..)` */
    method Associate(source: SocketAddress) returns (association: Association)
      requires Valid()
      modifies `associations
      ensures Valid() && source in associations && associations[source] == association
      ensures source in old(associations) ==> associations == old(associations)
      ensures source !in old(associations) ==>
                fresh(association) && associations == old(associations)[source := association]
      ensures association.View() == AssociationFor(old(View(Idle)), source)
      ensures var before := old(View(Idle));
              View(Idle) == before.(associations := before.associations[source := AssociationFor(before, source)])
    {
      if source !in associations {
        association := new Association();
        associations := associations[source := association];
      } else {
        association := associations[source];
      }
    }

    /** Without a socket for a new association the loop panics before anything is changed. */
    method Send(source: SocketAddress, original: SocketAddress, destination: SocketAddress, opens: bool, written: bool)
      returns (ok: bool)
      requires Valid()
      modifies this, associations.Values
      ensures Valid() && fresh(associations.Values - old(associations.Values))
      ensures var after := SendStep(old(View(Idle)), source, original, destination, opens, written);
              View(if ok then Idle else Stopped) == after
    {
      if source !in associations && !opens {
        SameButLoop(Stopped);
        return false;
      }
      ForwardByUpdates(View(Idle), source, original, destination, written);
      var association := Associate(source);
      label Associated:
      ok := association.Send(original, destination, written);
      OneChanged@Associated(source);
      SameButLoop(if ok then Idle else Stopped);
    }

    method AssignResponseSocket(original: SocketAddress, binds: bool) returns (socket: Option<Socket>)
      modifies `sockets, `made
      ensures original !in old(sockets) && !binds ==> socket == None && View(Idle) == old(View(Idle))
      ensures original in old(sockets) || binds ==>
                && View(Idle) == WithSocket(old(View(Idle)), original)
                && original in sockets && socket == Some(sockets[original])
    {
      if original in sockets {
        return Some(sockets[original]);
      }
      if !binds {
        return None;
      }
      sockets, made := sockets[original := Socket(made, original)], made + 1;
      socket := Some(sockets[original]);
    }

    /** One turn of an association's read task, on a datagram from `from`. */
    method AnswerFrom(source: SocketAddress, from: SocketAddress, binds: bool, written: bool)
      requires Valid() && source in associations
      modifies this, associations[source]
      ensures Valid() && associations == old(associations)
      ensures View(Idle) == ReplyStep(old(View(Idle)), source, from, binds, written)
    {
      var association := associations[source];
      var original := if from in association.realToOriginal then association.realToOriginal[from] else from;
      var socket := AssignResponseSocket(original, binds);
      label Assigned:
      association.Answered(original, socket, written);
      OneChanged@Assigned(source);
    }

    /** The removal task: it drops the association, then every socket nothing else holds. `held` are
        the sockets some task still has a reference to. */
    method Expire(source: SocketAddress, held: set<SocketAddress>)
      requires Valid()
      modifies this
      ensures Valid()
      ensures var before := old(View(Idle));
              View(Idle) == before.(associations := before.associations - {source},
                                    sockets := map o | o in before.sockets.Keys * held :: before.sockets[o])
    {
      associations := associations - {source};
      sockets := map o | o in sockets && o in held :: sockets[o];
    }
  }

  method Relay(forwarder: UdpForwarder, d: Datagram) returns (ok: bool)
    requires forwarder.Valid()
    modifies forwarder, forwarder.associations.Values
    ensures forwarder.Valid() && fresh(forwarder.associations.Values - old(forwarder.associations.Values))
    ensures forwarder.View(if ok then Idle else Stopped) == Relayed(old(forwarder.View(Idle)), d)
  {
    ok := true;
    var destination := forwarder.GetAssociatedDestination(d.source, d.original);
    if destination.None? {
      if d.routing.Panics? {
        forwarder.SameButLoop(Stopped);
        return false;
      }
      destination := d.routing.destination;
    }
    if destination.Some? {
      ok := forwarder.Send(d.source, d.original, destination.value, d.opens, d.written);
    }
  }

  /** The receive loop: it relays what it receives until receiving fails, it is dropped, or relaying
      ends it. */
  method ListenUdp(forwarder: UdpForwarder, incoming: seq<Incoming>) returns (ok: bool)
    requires forwarder.Valid()
    modifies forwarder, forwarder.associations.Values
    ensures forwarder.Valid()
    ensures forwarder.View(if ok then Idle else Stopped) == RelayedAll(old(forwarder.View(Idle)), incoming)
    ensures old(forwarder.View(Idle)) == INITIAL ==>
              && (ok <==> NoneStops(incoming))
              && (ok ==> Tells(forwarder.View(Idle), incoming))
  {
    RelaysAsAnswered(incoming);
    ok := true;
    var i := 0;
    ghost var before := forwarder.View(Idle);
    while i < |incoming| && ok
      invariant 0 <= i <= |incoming| && forwarder.Valid()
      invariant fresh(forwarder.associations.Values - old(forwarder.associations.Values))
      invariant forwarder.View(if ok then Idle else Stopped) == RelayedAll(before, incoming[..i])
    {
      assert incoming[..i + 1][..i] == incoming[..i];
      if incoming[i].Received? {
        ok := Relay(forwarder, incoming[i].datagram);
      } else {
        forwarder.SameButLoop(Stopped);
        ok := false;
      }
      i := i + 1;
    }
    StoppedStays(before, incoming, i);
    assert incoming[..|incoming|] == incoming;
  }
}
