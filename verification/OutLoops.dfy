/** Which accept loops serve and which tunnels hold a permit, told from the steps a run took alone. */
module OutLoops {
  import opened OutHandlers

  predicate Claims(step: Step, h: Handler, out: Out) {
    step.Claim? && step.h == h && step.out == out
  }

  lemma StepServes(s: State, step: Step, h: Handler, out: Out)
    requires Enabled(s, step)
    ensures var t := Next(s, step);
            (Serves(t, h) && t.loops[h].out == out)
            <==> ((Serves(s, h) && s.loops[h].out == out) || Claims(step, h, out)) && step != Gone(h)
  {
  }

  lemma StepKnows(s: State, step: Step, h: Handler, out: Out)
    requires Enabled(s, step)
    ensures var t := Next(s, step);
            (h in t.loops && t.loops[h].out == out) <==> (h in s.loops && s.loops[h].out == out) || Claims(step, h, out)
  {
  }

  /** A loop is there for the OUT it claimed, from then on. */
  lemma {:induction false} KnownExactly(steps: seq<Step>, h: Handler, out: Out)
    requires ValidRun(steps)
    ensures (h in After(steps).loops && After(steps).loops[h].out == out)
       <==> exists n :: 0 <= n < |steps| && Claims(steps[n], h, out)
  {
    if steps != [] {
      var front, last := steps[..|steps| - 1], steps[|steps| - 1];
      KnownExactly(front, h, out);
      StepKnows(After(front), last, h, out);
      assert forall n :: 0 <= n < |front| ==> steps[n] == front[n];
    }
  }

  /** A loop serves an OUT if and only if it claimed it and has not found it gone: no failed accept, no
      permit taken or given back ends it. */
  lemma {:induction false} ServesExactly(steps: seq<Step>, h: Handler, out: Out)
    requires ValidRun(steps)
    ensures (Serves(After(steps), h) && After(steps).loops[h].out == out)
       <==> (exists n :: 0 <= n < |steps| && Claims(steps[n], h, out)) && Gone(h) !in steps
  {
    if steps != [] {
      var front, last := steps[..|steps| - 1], steps[|steps| - 1];
      assert steps == front + [last];
      ServesExactly(front, h, out);
      KnownExactly(front, h, out);
      StepServes(After(front), last, h, out);
      assert forall n :: 0 <= n < |front| ==> steps[n] == front[n];
      if Gone(h) in front {
        GoneForGood(front, h);
      }
    }
  }

  lemma StepGone(s: State, step: Step, h: Handler)
    requires Enabled(s, step) && h in s.loops && !Serves(s, h)
    ensures h in Next(s, step).loops && !Serves(Next(s, step), h)
  {
  }

  lemma {:induction false} GoneForGood(steps: seq<Step>, h: Handler)
    requires ValidRun(steps) && Gone(h) in steps
    ensures h in After(steps).loops && !Serves(After(steps), h)
  {
    var front, last := steps[..|steps| - 1], steps[|steps| - 1];
    assert steps == front + [last];
    if Gone(h) in front {
      GoneForGood(front, h);
      StepGone(After(front), last, h);
    }
  }

  /** An OUT is active if and only if a loop that claimed it has not found it gone. */
  lemma ActiveExactly(steps: seq<Step>, out: Out)
    requires ValidRun(steps)
    ensures out in After(steps).active
       <==> exists h, n :: 0 <= n < |steps| && Claims(steps[n], h, out) && Gone(h) !in steps
  {
    SingleHandler(steps, out);
    if h :| Serves(After(steps), h) && After(steps).loops[h].out == out {
      ServesExactly(steps, h, out);
    }
    if h, n :| 0 <= n < |steps| && Claims(steps[n], h, out) && Gone(h) !in steps {
      ServesExactly(steps, h, out);
    }
  }

  /** After a failed accept the loop goes on to take a permit again, its OUT as active as before. */
  lemma FailedAcceptGoesOn(steps: seq<Step>, h: Handler)
    requires ValidRun(steps) && Enabled(After(steps), Fails(h))
    ensures var more := steps + [Fails(h), Acquire(h)];
            && ValidRun(more) && After(more) == After(steps) && InPhase(After(more), h, Holding)
  {
    var s, failed, more := After(steps), steps + [Fails(h)], steps + [Fails(h), Acquire(h)];
    assert failed[..|failed| - 1] == steps && more[..|more| - 1] == failed;
    assert After(failed) == Next(s, Fails(h));
    assert After(more).loops == s.loops;
  }

  // ---- Permits ----

  lemma StepHeld(s: State, step: Step, h: Handler, tunnel: Tunnel)
    requires Enabled(s, step)
    ensures var t := Next(s, step);
            (tunnel in t.held && t.held[tunnel] == h)
            <==> step == Accepted(h, tunnel) || (tunnel in s.held && s.held[tunnel] == h && step != Release(tunnel))
  {
  }

  /** The loop accepted the tunnel at step `n`, and nobody has taken its permit since. */
  predicate AcceptedAt(steps: seq<Step>, h: Handler, tunnel: Tunnel, n: nat) {
    n < |steps| && steps[n] == Accepted(h, tunnel) && Release(tunnel) !in steps[n + 1..]
  }

  lemma AcceptedNext(front: seq<Step>, last: Step, h: Handler, tunnel: Tunnel, n: nat)
    ensures AcceptedAt(front + [last], h, tunnel, n) <==>
              if n == |front| then last == Accepted(h, tunnel)
              else AcceptedAt(front, h, tunnel, n) && last != Release(tunnel)
  {
    if n < |front| {
      assert (front + [last])[n + 1..] == front[n + 1..] + [last];
    }
  }

  /** A tunnel holds a permit of the loop that accepted it until it is released. */
  lemma {:induction false} HeldExactly(steps: seq<Step>, h: Handler, tunnel: Tunnel)
    requires ValidRun(steps)
    ensures (tunnel in After(steps).held && After(steps).held[tunnel] == h)
       <==> exists n :: AcceptedAt(steps, h, tunnel, n)
  {
    if steps != [] {
      var front, last := steps[..|steps| - 1], steps[|steps| - 1];
      assert steps == front + [last];
      HeldExactly(front, h, tunnel);
      StepHeld(After(front), last, h, tunnel);
      forall n: nat
        ensures AcceptedAt(steps, h, tunnel, n) <==>
                  if n == |front| then last == Accepted(h, tunnel)
                  else AcceptedAt(front, h, tunnel, n) && last != Release(tunnel)
      {
        AcceptedNext(front, last, h, tunnel, n);
      }
      if last == Accepted(h, tunnel) {
        assert AcceptedAt(steps, h, tunnel, |front|);
      } else if n :| AcceptedAt(front, h, tunnel, n) {
        assert AcceptedAt(steps, h, tunnel, n) <==> last != Release(tunnel);
      }
    }
  }
}
