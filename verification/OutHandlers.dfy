/** Who serves which OUT, and how many tunnels each may hold: the set of active OUT ids, the accept
    loops they start, and the permits these hand to their tunnels. A tunnel counts here as long as it holds
    its permit. */
module OutHandlers {
  import opened Prelude
  import opened Ids

  // ---- The accept loops ----

  type Handler = nat
  type Tunnel = nat

  datatype Out = Out(name: string, id: OutId)

  datatype Phase =
    | Claimed // its id is in the set, its task is not running yet
    | Ready   // about to take a permit
    | Holding // with a permit, accepting a tunnel
    | Leaving // told that the OUT is gone, permit still in hand
    | Done

  datatype Loop = Loop(out: Out, connections: nat, free: nat, phase: Phase)

  datatype State = State(
    active: set<Out>,
    loops: map<Handler, Loop>,
    held: map<Tunnel, Handler>) // tunnels holding a permit, and whose

  const INITIAL := State({}, map[], map[])

  datatype Step =
    | Claim(h: Handler, out: Out, connections: nat)
    | Spawn(h: Handler)
    | Acquire(h: Handler)
    | Gone(h: Handler)                    // match_out finds no key: Ok(None)
    | Break(h: Handler)
    | Fails(h: Handler)                   // Err: the permit goes back
    | Accepted(h: Handler, tunnel: Tunnel)
    | Release(tunnel: Tunnel)             // no longer active, closed or dropped

  predicate InPhase(s: State, h: Handler, phase: Phase) {
    h in s.loops && s.loops[h].phase == phase
  }

  predicate Enabled(s: State, step: Step) {
    match step
    case Claim(h, out, _) => h !in s.loops && out !in s.active
    case Spawn(h) => InPhase(s, h, Claimed)
    case Acquire(h) => InPhase(s, h, Ready) && s.loops[h].free > 0
    case Gone(h) => InPhase(s, h, Holding)
    case Break(h) => InPhase(s, h, Leaving)
    case Fails(h) => InPhase(s, h, Holding)
    case Accepted(h, tunnel) => InPhase(s, h, Holding) && tunnel !in s.held
    case Release(tunnel) => tunnel in s.held && s.held[tunnel] in s.loops
  }

  function SetLoop(s: State, h: Handler, phase: Phase, free: int): State
    requires h in s.loops && free >= 0
  {
    s.(loops := s.loops[h := s.loops[h].(phase := phase, free := free)])
  }

  function Next(s: State, step: Step): State
    requires Enabled(s, step)
  {
    match step
    case Claim(h, out, connections) =>
      s.(active := s.active + {out}, loops := s.loops[h := Loop(out, connections, connections, Claimed)])
    case Spawn(h) => SetLoop(s, h, Ready, s.loops[h].free)
    case Acquire(h) => SetLoop(s, h, Holding, s.loops[h].free - 1)
    case Gone(h) => SetLoop(s, h, Leaving, s.loops[h].free).(active := s.active - {s.loops[h].out})
    case Break(h) => SetLoop(s, h, Done, s.loops[h].free + 1)
    case Fails(h) => SetLoop(s, h, Ready, s.loops[h].free + 1)
    case Accepted(h, tunnel) => SetLoop(s, h, Ready, s.loops[h].free).(held := s.held[tunnel := h])
    case Release(tunnel) =>
      var h := s.held[tunnel];
      SetLoop(s, h, s.loops[h].phase, s.loops[h].free + 1).(held := s.held - {tunnel})
  }

  ghost predicate ValidRun(steps: seq<Step>)
    decreases |steps|, 0
  {
    steps == [] || (ValidRun(steps[..|steps| - 1]) && Enabled(After(steps[..|steps| - 1]), steps[|steps| - 1]))
  }

  ghost function After(steps: seq<Step>): State
    requires ValidRun(steps)
    decreases |steps|, 1
  {
    if steps == [] then INITIAL else Next(After(steps[..|steps| - 1]), steps[|steps| - 1])
  }

  /** Can this loop still call `match_out`, now or later? */
  predicate Serves(s: State, h: Handler) {
    h in s.loops && (s.loops[h].phase.Claimed? || s.loops[h].phase.Ready? || s.loops[h].phase.Holding?)
  }

  predicate HasPermit(l: Loop) {
    l.phase.Holding? || l.phase.Leaving?
  }

  function HeldBy(held: map<Tunnel, Handler>, h: Handler): set<Tunnel> {
    set t | t in held && held[t] == h
  }

  ghost predicate Conserved(s: State, h: Handler)
    requires h in s.loops
  {
    s.loops[h].free + (if HasPermit(s.loops[h]) then 1 else 0) + |HeldBy(s.held, h)| == s.loops[h].connections
  }

  ghost predicate PermitsOk(s: State) {
    (forall h :: h in s.loops ==> Conserved(s, h)) && (forall t :: t in s.held ==> s.held[t] in s.loops)
  }

  ghost predicate ServersOk(s: State) {
    && (forall out :: out in s.active ==> exists h :: Serves(s, h) && s.loops[h].out == out)
    && (forall h :: Serves(s, h) ==> s.loops[h].out in s.active)
    && (forall h, g :: Serves(s, h) && Serves(s, g) && s.loops[h].out == s.loops[g].out ==> h == g)
  }

  lemma OneLoopChanges(s: State, t: State, h: Handler)
    requires PermitsOk(s) && t.held == s.held && h in t.loops && Conserved(t, h)
    requires t.loops.Keys == s.loops.Keys + {h} && forall g :: g in s.loops && g != h ==> t.loops[g] == s.loops[g]
    ensures PermitsOk(t)
  {
  }

  lemma HeldByTaker(held: map<Tunnel, Handler>, h: Handler, tunnel: Tunnel, g: Handler)
    requires tunnel !in held
    ensures |HeldBy(held[tunnel := h], g)| == |HeldBy(held, g)| + (if g == h then 1 else 0)
  {
    assert HeldBy(held[tunnel := h], g) == HeldBy(held, g) + if g == h then {tunnel} else {};
  }

  lemma PermitTaken(s: State, h: Handler, tunnel: Tunnel)
    requires PermitsOk(s) && Enabled(s, Accepted(h, tunnel))
    ensures PermitsOk(Next(s, Accepted(h, tunnel)))
  {
    var t := Next(s, Accepted(h, tunnel));
    forall g | g in t.loops
      ensures Conserved(t, g)
    {
      assert Conserved(s, g);
      HeldByTaker(s.held, h, tunnel, g);
    }
  }

  lemma PermitReleased(s: State, tunnel: Tunnel)
    requires PermitsOk(s) && Enabled(s, Release(tunnel))
    ensures PermitsOk(Next(s, Release(tunnel)))
  {
    var t := Next(s, Release(tunnel));
    forall g | g in t.loops
      ensures Conserved(t, g)
    {
      assert Conserved(s, g);
      assert HeldBy(t.held, g) == HeldBy(s.held, g) - {tunnel};
    }
  }

  lemma StepKeepsPermits(s: State, step: Step)
    requires PermitsOk(s) && Enabled(s, step)
    ensures PermitsOk(Next(s, step))
  {
    if step.Accepted? {
      PermitTaken(s, step.h, step.tunnel);
    } else if step.Release? {
      PermitReleased(s, step.tunnel);
    } else {
      assert step.Claim? ==> HeldBy(s.held, step.h) == {};
      assert step.h in s.loops ==> Conserved(s, step.h);
      OneLoopChanges(s, Next(s, step), step.h);
    }
  }

  lemma SameServers(s: State, t: State)
    requires ServersOk(s) && t.active == s.active
    requires forall h :: Serves(t, h) <==> Serves(s, h)
    requires forall h :: Serves(s, h) ==> h in t.loops && t.loops[h].out == s.loops[h].out
    ensures ServersOk(t)
  {
  }

  lemma ClaimKeepsServers(s: State, h: Handler, out: Out, connections: nat)
    requires ServersOk(s) && Enabled(s, Claim(h, out, connections))
    ensures ServersOk(Next(s, Claim(h, out, connections)))
  {
    var t := Next(s, Claim(h, out, connections));
    forall o | o in t.active
      ensures exists g :: Serves(t, g) && t.loops[g].out == o
    {
      if o == out {
        assert Serves(t, h);
      } else {
        var g :| Serves(s, g) && s.loops[g].out == o;
        assert Serves(t, g);
      }
    }
  }

  lemma GoneKeepsServers(s: State, h: Handler)
    requires ServersOk(s) && Enabled(s, Gone(h))
    ensures ServersOk(Next(s, Gone(h)))
  {
    var t := Next(s, Gone(h));
    assert Serves(s, h);
    forall o | o in t.active
      ensures exists g :: Serves(t, g) && t.loops[g].out == o
    {
      var g :| Serves(s, g) && s.loops[g].out == o;
      assert Serves(t, g);
    }
  }

  lemma StepKeepsServers(s: State, step: Step)
    requires ServersOk(s) && Enabled(s, step)
    ensures ServersOk(Next(s, step))
  {
    if step.Claim? {
      ClaimKeepsServers(s, step.h, step.out, step.connections);
    } else if step.Gone? {
      GoneKeepsServers(s, step.h);
    } else {
      SameServers(s, Next(s, step));
    }
  }

  lemma {:induction false} RunKeepsInv(steps: seq<Step>)
    requires ValidRun(steps)
    ensures PermitsOk(After(steps)) && ServersOk(After(steps))
  {
    if steps != [] {
      RunKeepsInv(steps[..|steps| - 1]);
      StepKeepsPermits(After(steps[..|steps| - 1]), steps[|steps| - 1]);
      StepKeepsServers(After(steps[..|steps| - 1]), steps[|steps| - 1]);
    }
  }

  /** In every run, for every match name, an id is in the active set just when there is a loop still
      able to call `match_out` for it, and then there is exactly one. */
  lemma SingleHandler(steps: seq<Step>, out: Out)
    requires ValidRun(steps)
    ensures var s := After(steps);
            out in s.active <==> exists h :: Serves(s, h) && s.loops[h].out == out
    ensures var s := After(steps);
            forall h, g :: Serves(s, h) && Serves(s, g) && s.loops[h].out == out && s.loops[g].out == out ==> h == g
  {
    RunKeepsInv(steps);
  }

  /** In every run a loop's permits are all accounted for: free, in its hand, or with one of its
      tunnels. So it never holds more tunnels than its connections, and it waits for a permit just
      when its tunnels hold them all. */
  lemma PermitsConserved(steps: seq<Step>, h: Handler)
    requires ValidRun(steps) && h in After(steps).loops
    ensures var s := After(steps);
            var l := s.loops[h];
            && l.free + (if HasPermit(l) then 1 else 0) + |HeldBy(s.held, h)| == l.connections
            && |HeldBy(s.held, h)| <= l.connections
            && (l.phase.Ready? ==> (!Enabled(s, Acquire(h)) <==> |HeldBy(s.held, h)| == l.connections))
  {
    RunKeepsInv(steps);
    assert Conserved(After(steps), h);
  }

  // ---- The set itself, as the two sides of the match server change it ----

  /** The first id among the scanned keys that parsed and is not active. */
  function FirstNew(keys: seq<Option<OutId>>, active: set<OutId>): (r: Option<OutId>)
    ensures r.Some? ==>
              exists i :: 0 <= i < |keys| && r == keys[i] && r.value !in active
                          && forall j :: 0 <= j < i ==> keys[j].None? || keys[j].value in active
    ensures r.None? <==> forall k: OutId :: Some(k) in keys ==> k in active
  {
    if keys == [] then None
    else if keys[0].Some? && keys[0].value !in active then keys[0]
    else FirstNew(keys[1..], active)
  }

  datatype AcceptError = BadMessage | SubscriptionEnded

  type ActiveMap = map<string, set<OutId>>

  /** An announced OUT id, or a message that cannot be read, and what the other accept loops and
      handlers have made of the map by the time the lock is taken for it. */
  datatype Message = Message(id: Option<OutId>, meanwhile: ActiveMap)

  function ActiveIn(active: ActiveMap, name: string): set<OutId> {
    if name in active then active[name] else {}
  }

  /** The pairs of match name and id the map holds: `active` of the step system. */
  ghost function Actives(active: ActiveMap): set<Out> {
    set name, id | name in active && id in active[name] :: Out(name, id)
  }

  /** Which message is the first to announce an id not active at its time, or cannot be read. */
  function FirstAnnounced(messages: seq<Message>, name: string): (n: nat)
    ensures n <= |messages|
    ensures forall i :: 0 <= i < n ==>
              messages[i].id.Some? && messages[i].id.value in ActiveIn(messages[i].meanwhile, name)
    ensures n < |messages| && messages[n].id.Some? ==> messages[n].id.value !in ActiveIn(messages[n].meanwhile, name)
  {
    if messages == [] || messages[0].id.None? || messages[0].id.value !in ActiveIn(messages[0].meanwhile, name) then 0
    else 1 + FirstAnnounced(messages[1..], name)
  }

  lemma ActivesPlus(active: ActiveMap, name: string, id: OutId)
    ensures Actives(active[name := ActiveIn(active, name) + {id}]) == Actives(active) + {Out(name, id)}
  {
    var next := active[name := ActiveIn(active, name) + {id}];
    forall out
      ensures out in Actives(next) <==> out in Actives(active) || out == Out(name, id)
    {
      assert out in Actives(next) <==> out.name in next && out.id in next[out.name];
      assert out in Actives(active) <==> out.name in active && out.id in active[out.name];
    }
  }

  lemma ActivesMinus(active: ActiveMap, name: string, id: OutId)
    requires name in active
    ensures Actives(active[name := active[name] - {id}]) == Actives(active) - {Out(name, id)}
  {
    var next := active[name := active[name] - {id}];
    forall out
      ensures out in Actives(next) <==> out in Actives(active) && out != Out(name, id)
    {
      assert out in Actives(next) <==> out.name in next && out.id in next[out.name];
      assert out in Actives(active) <==> out.name in active && out.id in active[out.name];
    }
  }

  lemma ActivesEntry(active: ActiveMap, name: string)
    requires name !in active
    ensures Actives(active[name := {}]) == Actives(active)
  {
  }

  /** The set changes as by a loop claiming `out`, which a new loop may do. */
  ghost predicate IsClaim(before: set<Out>, after: set<Out>, out: Out) {
    forall s: State, h, connections :: s.active == before && h !in s.loops ==>
      Enabled(s, Claim(h, out, connections)) && Next(s, Claim(h, out, connections)).active == after
  }

  /** The set changes as by a loop that finds its OUT gone. */
  ghost predicate IsGone(before: set<Out>, after: set<Out>, out: Out) {
    forall s: State, h :: s.active == before && InPhase(s, h, Holding) && s.loops[h].out == out ==>
      Enabled(s, Gone(h)) && Next(s, Gone(h)).active == after
  }

  class ActiveOuts {
    var active: ActiveMap

    constructor ()
      ensures active == map[] && View() == INITIAL.active
    {
      active := map[];
    }

    ghost function View(): set<Out>
      reads this
    {
      Actives(active)
    }

    /** One turn under the set's lock: an id that is not active is claimed. */
    method TryClaim(name: string, id: OutId) returns (claimed: bool)
      modifies this
      ensures claimed <==> Out(name, id) !in old(View())
      ensures View() == old(View()) + {Out(name, id)}
      ensures !claimed ==> active == old(active)
    {
      assert Out(name, id) in View() <==> name in active && id in active[name];
      claimed := id !in ActiveIn(active, name);
      if claimed {
        ActivesPlus(active, name, id);
        active := active[name := ActiveIn(active, name) + {id}];
      }
    }

    /** The first OUT among the scanned keys, under one lock. */
    method ClaimScanned(name: string, keys: seq<Option<OutId>>) returns (id: Option<OutId>)
      modifies this
      ensures id == FirstNew(keys, ActiveIn(old(active), name))
      ensures id.Some? ==> Out(name, id.value) !in old(View()) && View() == old(View()) + {Out(name, id.value)}
      ensures id.None? ==> View() == old(View())
    {
      if name !in active {
        ActivesEntry(active, name);
        active := active[name := {}];
      }
      var i := 0;
      while i < |keys|
        invariant 0 <= i <= |keys| && name in active && active[name] == ActiveIn(old(active), name)
        invariant View() == old(View())
        invariant FirstNew(keys, active[name]) == FirstNew(keys[i..], active[name])
      {
        if keys[i].Some? && keys[i].value !in active[name] {
          var claimed := TryClaim(name, keys[i].value);
          return keys[i];
        }
        i := i + 1;
      }
      id := None;
    }

    /** `before` is the set when its lock was taken last. Accepting takes a `Claim` step of the accept
        loops from there; when nothing is accepted, that turn changed nothing. */
    method AcceptOut(name: string, keys: seq<Option<OutId>>, messages: seq<Message>)
      returns (r: Result<OutId, AcceptError>, ghost before: set<Out>)
      modifies this
      ensures match FirstNew(keys, ActiveIn(old(active), name))
              case Some(id) => r == Ok(id) && before == old(View())
              case None =>
                var n := FirstAnnounced(messages, name);
                if n == |messages| then r == Err(SubscriptionEnded)
                else if messages[n].id.None? then r == Err(BadMessage)
                else r == Ok(messages[n].id.value) && before == Actives(messages[n].meanwhile)
      ensures r.Ok? ==> IsClaim(before, View(), Out(name, r.value))
      ensures r.Err? ==> View() == before
    {
      before := View();
      var scanned := ClaimScanned(name, keys);
      if scanned.Some? {
        return Ok(scanned.value), before;
      }
      var i := 0;
      while i < |messages|
        invariant 0 <= i <= |messages| && View() == before
        invariant FirstAnnounced(messages, name) == i + FirstAnnounced(messages[i..], name)
      {
        if messages[i].id.None? {
          return Err(BadMessage), before;
        }
        active := messages[i].meanwhile;
        before := View();
        assert Out(name, messages[i].id.value) in before <==> messages[i].id.value in ActiveIn(active, name);
        var claimed := TryClaim(name, messages[i].id.value);
        if claimed {
          return Ok(messages[i].id.value), before;
        }
        i := i + 1;
      }
      r := Err(SubscriptionEnded);
    }

    /** What `match_out` does when the OUT's key is gone. The set of the match name exists, since the OUT
        was accepted. */
    method Deactivate(name: string, id: OutId)
      requires name in active
      modifies this
      ensures IsGone(old(View()), View(), Out(name, id)) && Out(name, id) !in View()
    {
      ActivesMinus(active, name, id);
      active := active[name := active[name] - {id}];
    }
  }

  // ---- The tunnels of an OUT over all its loops ----

  /** The tunnels with a permit of any loop for this OUT. */
  function TunnelsOf(s: State, out: Out): set<Tunnel> {
    set t | t in s.held && s.held[t] in s.loops && s.loops[s.held[t]].out == out
  }

  /** Those that the loop's predecessors left. */
  function LeftTo(s: State, h: Handler): set<Tunnel>
    requires h in s.loops
  {
    TunnelsOf(s, s.loops[h].out) - HeldBy(s.held, h)
  }

  lemma OwnAndLeft(s: State, h: Handler)
    requires h in s.loops
    ensures |TunnelsOf(s, s.loops[h].out)| == |HeldBy(s.held, h)| + |LeftTo(s, h)|
  {
    assert TunnelsOf(s, s.loops[h].out) == HeldBy(s.held, h) + LeftTo(s, h);
  }

  /** In every run: an OUT stays within the `connections` of a loop of its if and only if the tunnels its
      other loops left are no more than the permits this loop does not have out with tunnels. */
  lemma OutWithinConnections(steps: seq<Step>, h: Handler)
    requires ValidRun(steps) && h in After(steps).loops
    ensures var s := After(steps);
            var l := s.loops[h];
            |TunnelsOf(s, l.out)| <= l.connections <==> |LeftTo(s, h)| <= l.free + (if HasPermit(l) then 1 else 0)
  {
    PermitsConserved(steps, h);
    OwnAndLeft(After(steps), h);
  }

  // ---- Where a run can still go ----

  ghost predicate Continues(more: seq<Step>, steps: seq<Step>) {
    |steps| <= |more| && more[..|steps|] == steps && ValidRun(more)
  }

  /** Once a loop serves its OUT, only it gives tunnels to it: what others left can only go. */
  lemma LeftOnlyGoes(s: State, step: Step, h: Handler)
    requires ServersOk(s) && PermitsOk(s) && Enabled(s, step) && h in s.loops && Serves(Next(s, step), h)
    ensures Serves(s, h) && Next(s, step).loops[h].out == s.loops[h].out
    ensures Next(s, step).loops[h].connections == s.loops[h].connections
    ensures LeftTo(Next(s, step), h) <= LeftTo(s, h)
  {
    if step.Accepted? {
      assert Serves(s, step.h);
      assert s.loops[step.h].out == s.loops[h].out ==> step.h == h;
    }
  }

  lemma {:induction false} LeftNeverGrows(more: seq<Step>, steps: seq<Step>, h: Handler)
    requires ValidRun(steps) && Continues(more, steps) && h in After(steps).loops && Serves(After(more), h)
    ensures Serves(After(steps), h) && After(more).loops[h].out == After(steps).loops[h].out
    ensures After(more).loops[h].connections == After(steps).loops[h].connections
    ensures LeftTo(After(more), h) <= LeftTo(After(steps), h)
    decreases |more|
  {
    if |more| == |steps| {
      assert more[..|steps|] == more;
    } else {
      var front := more[..|more| - 1];
      assert front[..|steps|] == steps;
      RunKeepsInv(front);
      LoopsStay(front, steps, h);
      LeftOnlyGoes(After(front), more[|more| - 1], h);
      LeftNeverGrows(front, steps, h);
    }
  }

  lemma LoopStays(s: State, step: Step, h: Handler)
    requires Enabled(s, step) && h in s.loops
    ensures h in Next(s, step).loops
  {
  }

  lemma {:induction false} LoopsStay(more: seq<Step>, steps: seq<Step>, h: Handler)
    requires ValidRun(steps) && Continues(more, steps) && h in After(steps).loops
    ensures h in After(more).loops
    decreases |more|
  {
    if |more| == |steps| {
      assert more[..|steps|] == more;
    } else {
      var front := more[..|more| - 1];
      assert front[..|steps|] == steps;
      LoopsStay(front, steps, h);
      LoopStays(After(front), more[|more| - 1], h);
    }
  }

  lemma Extended(steps: seq<Step>, step: Step) returns (more: seq<Step>)
    requires ValidRun(steps) && Enabled(After(steps), step)
    ensures Continues(more, steps) && After(more) == Next(After(steps), step)
  {
    more := steps + [step];
    assert more[..|more| - 1] == steps;
  }

  /** A loop in `Ready` with a permit free takes one and gives it to a tunnel. */
  lemma TunnelUp(steps: seq<Step>, h: Handler, tunnel: Tunnel) returns (more: seq<Step>)
    requires ValidRun(steps) && Enabled(After(steps), Acquire(h)) && tunnel !in After(steps).held
    ensures Continues(more, steps)
    ensures var s := After(steps);
            var l := s.loops[h].(free := s.loops[h].free - 1);
            After(more) == s.(loops := s.loops[h := l], held := s.held[tunnel := h])
  {
    var s := After(steps);
    more := Extended(steps, Acquire(h));
    more := Extended(more, Accepted(h, tunnel));
    assert After(more).loops == s.loops[h := s.loops[h].(free := s.loops[h].free - 1)];
  }

  /** An OUT that is not active is accepted by a new loop. */
  lemma LoopUp(steps: seq<Step>, h: Handler, out: Out, connections: nat) returns (more: seq<Step>)
    requires ValidRun(steps) && Enabled(After(steps), Claim(h, out, connections))
    ensures ValidRun(more)
    ensures var s := After(steps);
            After(more) == State(s.active + {out}, s.loops[h := Loop(out, connections, connections, Ready)], s.held)
  {
    more := Extended(steps, Claim(h, out, connections));
    more := Extended(more, Spawn(h));
    assert After(more).loops == After(steps).loops[h := Loop(out, connections, connections, Ready)];
  }

  /** A loop with a permit free finds its OUT gone. */
  lemma LoopOver(steps: seq<Step>, h: Handler) returns (more: seq<Step>)
    requires ValidRun(steps) && Enabled(After(steps), Acquire(h))
    ensures ValidRun(more)
    ensures var s := After(steps);
            After(more) == State(s.active - {s.loops[h].out}, s.loops[h := s.loops[h].(phase := Done)], s.held)
  {
    more := Extended(steps, Acquire(h));
    more := Extended(more, Gone(h));
    more := Extended(more, Break(h));
    assert After(more).loops == After(steps).loops[h := After(steps).loops[h].(phase := Done)];
  }

  lemma {:induction false} FreshTunnel(held: set<Tunnel>) returns (t: Tunnel)
    ensures forall u :: u in held ==> u < t
    decreases held
  {
    t := 0;
    if u :| u in held {
      t := FreshTunnel(held - {u});
      if t <= u {
        t := u + 1;
      }
      assert forall v :: v in held ==> v == u || v in held - {u};
    }
  }

  lemma ContinuesOn(steps: seq<Step>, more: seq<Step>, further: seq<Step>)
    requires Continues(more, steps) && Continues(further, more)
    ensures Continues(further, steps)
  {
    assert further[..|steps|] == further[..|more|][..|steps|];
  }

  /** The loop is the same one and its predecessors' tunnels are still there. */
  ghost predicate SameAndLeft(s: State, t: State, h: Handler) {
    && h in s.loops && Serves(t, h)
    && t.loops[h].out == s.loops[h].out && t.loops[h].connections == s.loops[h].connections
    && LeftTo(s, h) <= LeftTo(t, h)
  }

  /** A serving loop can come to where it is about to take a permit. */
  lemma GetReady(steps: seq<Step>, h: Handler) returns (more: seq<Step>)
    requires ValidRun(steps) && Serves(After(steps), h)
    ensures Continues(more, steps) && SameAndLeft(After(steps), After(more), h) && After(more).loops[h].phase == Ready
  {
    more := steps;
    assert more[..|steps|] == steps;
    if After(steps).loops[h].phase == Claimed {
      more := Extended(steps, Spawn(h));
    } else if After(steps).loops[h].phase == Holding {
      var t := FreshTunnel(After(steps).held.Keys);
      assert t !in After(steps).held;
      more := Extended(steps, Accepted(h, t));
    }
  }

  /** From there it can hand every free permit to a tunnel. */
  lemma {:induction false} FillUp(steps: seq<Step>, h: Handler) returns (more: seq<Step>)
    requires ValidRun(steps) && Serves(After(steps), h) && After(steps).loops[h].phase == Ready
    ensures Continues(more, steps) && SameAndLeft(After(steps), After(more), h)
    ensures After(more).loops[h].phase == Ready && After(more).loops[h].free == 0
    decreases After(steps).loops[h].free
  {
    var s := After(steps);
    if s.loops[h].free == 0 {
      more := steps;
    } else {
      var t := FreshTunnel(s.held.Keys);
      assert t !in s.held;
      var one := TunnelUp(steps, h, t);
      more := FillUp(one, h);
      ContinuesOn(steps, one, more);
    }
  }

  lemma NothingLeftNoExcess(steps: seq<Step>, h: Handler, more: seq<Step>)
    requires ValidRun(steps) && Continues(more, steps) && Serves(After(steps), h) && Serves(After(more), h)
    requires LeftTo(After(steps), h) == {}
    ensures |TunnelsOf(After(more), After(steps).loops[h].out)| <= After(steps).loops[h].connections
  {
    LeftNeverGrows(more, steps, h);
    OutWithinConnections(more, h);
  }

  lemma SomethingLeftExcess(steps: seq<Step>, h: Handler) returns (more: seq<Step>)
    requires ValidRun(steps) && Serves(After(steps), h) && LeftTo(After(steps), h) != {}
    ensures Continues(more, steps) && Serves(After(more), h)
    ensures |TunnelsOf(After(more), After(steps).loops[h].out)| > After(steps).loops[h].connections
  {
    var ready := GetReady(steps, h);
    more := FillUp(ready, h);
    ContinuesOn(steps, ready, more);
    PermitsConserved(more, h);
    OwnAndLeft(After(more), h);
    var t :| t in LeftTo(After(steps), h);
    assert t in LeftTo(After(more), h);
  }

  /** An OUT can be driven past the `connections` of the loop that serves it, while that loop serves it,
      if and only if its earlier loops left a tunnel. */
  lemma CanExceedExactly(steps: seq<Step>, h: Handler)
    requires ValidRun(steps) && Serves(After(steps), h)
    ensures (exists more :: Continues(more, steps) && Exceeds(more, h, After(steps).loops[h])) <==>
              LeftTo(After(steps), h) != {}
  {
    if LeftTo(After(steps), h) == {} {
      forall more | Continues(more, steps)
        ensures !Exceeds(more, h, After(steps).loops[h])
      {
        if Serves(After(more), h) {
          NothingLeftNoExcess(steps, h, more);
        }
      }
    } else {
      var more := SomethingLeftExcess(steps, h);
      assert Exceeds(more, h, After(steps).loops[h]);
    }
  }

  /** At the end of the run the loop serves, and its OUT has more tunnels than it has connections. */
  ghost predicate Exceeds(steps: seq<Step>, h: Handler, l: Loop)
    requires ValidRun(steps)
  {
    Serves(After(steps), h) && |TunnelsOf(After(steps), l.out)| > l.connections
  }

  const LEFT := 10
  const FIRST := 11
  const SECOND := 12

  /** An OUT of two connections gets a tunnel and goes away while the tunnel lives. */
  lemma GoneWithTunnel(out: Out) returns (steps: seq<Step>)
    ensures ValidRun(steps)
    ensures After(steps) == State({}, map[0 := Loop(out, 2, 1, Done)], map[LEFT := 0])
  {
    steps := LoopUp([], 0, out, 2);
    assert After(steps) == State({out}, map[0 := Loop(out, 2, 2, Ready)], map[]);
    steps := TunnelUp(steps, 0, LEFT);
    assert After(steps) == State({out}, map[0 := Loop(out, 2, 1, Ready)], map[LEFT := 0]);
    steps := LoopOver(steps, 0);
    assert After(steps).active == {};
  }

  /** The bound is per loop, not per OUT: such an OUT, coming back, gets two more. */
  lemma ReturningOutExceeds(out: Out) returns (steps: seq<Step>)
    ensures ValidRun(steps)
    ensures After(steps) == State({out}, map[0 := Loop(out, 2, 1, Done), 1 := Loop(out, 2, 0, Ready)],
                                  map[LEFT := 0, FIRST := 1, SECOND := 1])
  {
    steps := GoneWithTunnel(out);
    steps := LoopUp(steps, 1, out, 2);
    assert After(steps) == State({out}, map[0 := Loop(out, 2, 1, Done), 1 := Loop(out, 2, 2, Ready)], map[LEFT := 0]);
    steps := TunnelUp(steps, 1, FIRST);
    assert After(steps).loops == map[0 := Loop(out, 2, 1, Done), 1 := Loop(out, 2, 1, Ready)];
    assert After(steps).held == map[LEFT := 0, FIRST := 1];
    steps := TunnelUp(steps, 1, SECOND);
    assert After(steps).loops == map[0 := Loop(out, 2, 1, Done), 1 := Loop(out, 2, 0, Ready)];
  }
}
