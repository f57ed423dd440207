/** When the association of a source is there and when its task is over, told from the events of a run. */
module UdpLife {
  import opened Addresses
  import opened UdpNat

  /** The loop reaches the association while it sends for this source: it forwards, or is dropped inside. */
  predicate Makes(s: State, e: Event, source: SocketAddress) {
    s.loop.Resolved? && s.loop.source == source && (e.Forward? || e == Breaks(Cancelled(true)))
  }

  predicate Removes(e: Event, source: SocketAddress) {
    e.Expire? && e.source == source
  }

  /** The task of the association ends: by itself, or on a reply whose socket is refused or that cannot be
      written. */
  ghost predicate EndsTask(s: State, e: Event, source: SocketAddress) {
    e == End(source) || (e.Reply? && e.source == source && !(e.written && (e.binds || HasSocket(s, source, e.from))))
  }

  /** There is a socket bound to the original the client used last to reach the sender, else to the sender. */
  ghost predicate HasSocket(s: State, source: SocketAddress, from: SocketAddress) {
    source in s.associations &&
    var latest := LatestOriginal(s.associations[source].sent, from);
    (if latest.Some? then latest.value else from) in s.sockets
  }

  lemma StepPresent(s: State, e: Event, source: SocketAddress)
    requires Enabled(s, e)
    ensures source in Next(s, e).associations
       <==> (source in s.associations || Makes(s, e, source)) && !Removes(e, source)
  {
    match e {
      case Receive(_, _, _) =>
      case Forward(_) =>
      case Breaks(_) =>
      case Reply(_, _, _, _) =>
      case End(_) =>
      case Expire(_, _) =>
    }
  }

  lemma PresentedIs(s: State, source: SocketAddress, from: SocketAddress)
    requires Inv(s) && source in s.associations
    ensures Presented(s.associations[source], from) in s.sockets <==> HasSocket(s, source, from)
  {
    assert Consistent(s.associations[source]);
    assert Get(s.associations[source].realToOriginal, from) == LatestOriginal(s.associations[source].sent, from);
  }

  lemma StepEnded(s: State, e: Event, source: SocketAddress)
    requires Enabled(s, e) && Inv(s) && source in Next(s, e).associations
    ensures Next(s, e).associations[source].ended <==>
              (source in s.associations && s.associations[source].ended) || EndsTask(s, e, source)
  {
    match e {
      case Receive(_, _, _) =>
      case Forward(_) =>
      case Breaks(_) =>
      case Reply(p, from, _, _) =>
        if p == source {
          PresentedIs(s, source, from);
        }
      case End(_) =>
      case Expire(_, _) =>
    }
  }

  lemma {:induction false} Prefix(es: seq<Event>, n: nat)
    requires ValidRun(es) && n <= |es|
    ensures ValidRun(es[..n])
    decreases |es|
  {
    if n == |es| {
      assert es[..n] == es;
    } else {
      assert es[..|es| - 1][..n] == es[..n];
      Prefix(es[..|es| - 1], n);
    }
  }

  predicate NotRemovedAfter(es: seq<Event>, source: SocketAddress, n: nat) {
    forall m :: n < m < |es| ==> !Removes(es[m], source)
  }

  ghost predicate MadeAt(es: seq<Event>, source: SocketAddress, n: nat)
    requires ValidRun(es)
  {
    n < |es| && (Prefix(es, n); Makes(After(es[..n]), es[n], source)) && NotRemovedAfter(es, source, n)
  }

  ghost predicate EndedAt(es: seq<Event>, source: SocketAddress, n: nat)
    requires ValidRun(es)
  {
    n < |es| && (Prefix(es, n); EndsTask(After(es[..n]), es[n], source)) && NotRemovedAfter(es, source, n)
  }

  lemma LastMadeAt(es: seq<Event>, source: SocketAddress, n: nat)
    requires ValidRun(es) && es != []
    ensures var front, last := es[..|es| - 1], es[|es| - 1];
            && (MadeAt(es, source, n) <==>
                  if n == |front| then Makes(After(front), last, source)
                  else MadeAt(front, source, n) && !Removes(last, source))
            && (EndedAt(es, source, n) <==>
                  if n == |front| then EndsTask(After(front), last, source)
                  else EndedAt(front, source, n) && !Removes(last, source))
  {
    var front, last := es[..|es| - 1], es[|es| - 1];
    if n < |front| {
      assert front[..n] == es[..n];
      assert NotRemovedAfter(es, source, n) <==> NotRemovedAfter(front, source, n) && !Removes(last, source) by {
        assert forall m :: n < m < |front| ==> es[m] == front[m];
      }
    }
  }

  /** A source has an association from the first send on until its removal. */
  lemma {:induction false} PresentExactly(es: seq<Event>, source: SocketAddress)
    requires ValidRun(es)
    ensures source in After(es).associations <==> exists n :: MadeAt(es, source, n)
  {
    if es != [] {
      var front, last := es[..|es| - 1], es[|es| - 1];
      PresentExactly(front, source);
      StepPresent(After(front), last, source);
      forall n: nat
        ensures MadeAt(es, source, n) <==>
                  if n == |front| then Makes(After(front), last, source)
                  else MadeAt(front, source, n) && !Removes(last, source)
      {
        LastMadeAt(es, source, n);
      }
      if Makes(After(front), last, source) {
        assert MadeAt(es, source, |front|);
      } else if n :| MadeAt(front, source, n) {
        assert MadeAt(es, source, n) <==> !Removes(last, source);
      }
    }
  }

  /** Its task is over from its end, or from a reply that cannot be sent, until its removal. */
  lemma {:induction false} EndedExactly(es: seq<Event>, source: SocketAddress)
    requires ValidRun(es)
    ensures (source in After(es).associations && After(es).associations[source].ended)
       <==> exists n :: EndedAt(es, source, n)
  {
    if es != [] {
      var front, last := es[..|es| - 1], es[|es| - 1];
      var s := After(front);
      EndedExactly(front, source);
      RunKeepsInv(front);
      StepPresent(s, last, source);
      if source in Next(s, last).associations {
        StepEnded(s, last, source);
      }
      EndedWhilePresent(s, last, source);
      forall n: nat
        ensures EndedAt(es, source, n) <==>
                  if n == |front| then EndsTask(s, last, source)
                  else EndedAt(front, source, n) && !Removes(last, source)
      {
        LastMadeAt(es, source, n);
      }
      if EndsTask(s, last, source) {
        assert EndedAt(es, source, |front|);
      } else if n :| EndedAt(front, source, n) {
        assert EndedAt(es, source, n) <==> !Removes(last, source);
      }
    }
  }

  lemma EndedWhilePresent(s: State, e: Event, source: SocketAddress)
    requires Enabled(s, e)
    ensures EndsTask(s, e, source) ==> source in Next(s, e).associations
    ensures Removes(e, source) ==> source !in Next(s, e).associations && !EndsTask(s, e, source)
  {
    StepPresent(s, e, source);
  }
}
