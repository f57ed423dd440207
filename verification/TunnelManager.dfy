/** The tunnel manager: the tunnel map, the label index and the router, kept in step by its two
    critical sections, and selection on top of them. */
module TunnelManagers {
  import opened Prelude
  import opened Ids
  import opened Seqs
  import opened Rules
  import opened RuleCache
  import opened Matching
  import opened Selection
  import opened SelectionMeaning
  import opened Routers

  function TunnelsIn(order: seq<TunnelId>, tunnels: map<TunnelId, Tunnel>): (r: seq<Tunnel>)
    requires forall id :: id in order ==> id in tunnels
    ensures |r| == |order| && forall i :: 0 <= i < |r| ==> r[i] == tunnels[order[i]]
  {
    seq(|order|, i requires 0 <= i < |order| => tunnels[order[i]])
  }

  /** The tunnels of one OUT. */
  function OfOut(tunnels: map<TunnelId, Tunnel>, out: OutId): set<TunnelId> {
    set id | id in tunnels && tunnels[id].out == out
  }

  /** The router's per-OUT tunnel sets are the tunnel map grouped by OUT; no OUT is kept without one. */
  ghost predicate Coherent(outs: map<OutId, OutRules>, tunnels: map<TunnelId, Tunnel>) {
    && (forall o :: o in outs <==> OfOut(tunnels, o) != {})
    && (forall o :: o in outs ==> outs[o].tunnels == OfOut(tunnels, o))
  }

  lemma OpenCoherent(outs: map<OutId, OutRules>, tunnels: map<TunnelId, Tunnel>, t: Tunnel, rules: seq<Rule>)
    requires Coherent(outs, tunnels) && t.id !in tunnels
    ensures var before := if t.out in outs then outs[t.out].tunnels else {};
            Coherent(outs[t.out := OutRules(rules, before + {t.id})], tunnels[t.id := t])
  {
  }

  /** What unregistering a tunnel makes of the router's map. */
  function Closed(outs: map<OutId, OutRules>, out: OutId, id: TunnelId): map<OutId, OutRules> {
    if out !in outs then outs
    else if outs[out].tunnels - {id} == {} then outs - {out}
    else outs[out := OutRules(outs[out].rules, outs[out].tunnels - {id})]
  }

  lemma CloseCoherent(outs: map<OutId, OutRules>, tunnels: map<TunnelId, Tunnel>, id: TunnelId)
    requires Coherent(outs, tunnels) && id in tunnels
    ensures tunnels[id].out in outs && Coherent(Closed(outs, tunnels[id].out, id), tunnels - {id})
  {
    var next, out := tunnels - {id}, tunnels[id].out;
    assert id in OfOut(tunnels, out);
    forall o
      ensures OfOut(next, o) == OfOut(tunnels, o) - {id}
      ensures o != out ==> id !in OfOut(tunnels, o)
    {
    }
  }

  /** The OUT keeps its rules exactly while a tunnel of it is left; the others keep everything. */
  lemma CloseKeeps(outs: map<OutId, OutRules>, tunnels: map<TunnelId, Tunnel>, id: TunnelId)
    requires Coherent(outs, tunnels) && id in tunnels
    ensures var out, next := tunnels[id].out, Closed(outs, tunnels[id].out, id);
            && (out in next <==> exists other :: other in tunnels - {id} && tunnels[other].out == out)
            && (out in next ==> out in outs && next[out].rules == outs[out].rules)
            && forall o :: o != out ==> (o in next <==> o in outs) && (o in next ==> next[o] == outs[o])
  {
    var out := tunnels[id].out;
    CloseCoherent(outs, tunnels, id);
    if other :| other in tunnels - {id} && tunnels[other].out == out {
      assert other in OfOut(tunnels - {id}, out);
    }
    if other :| other in OfOut(tunnels - {id}, out) {
      assert other in tunnels - {id} && tunnels[other].out == out;
    }
  }

  class TunnelManager {
    const router: Router
    var tunnels: map<TunnelId, Tunnel>
    var index: LabelIndex
    var selectIndex: nat
    ghost var order: seq<TunnelId>    // the hash order the index was last built in

    ghost predicate Valid()
      reads this, router
    {
      && router.Valid()
      && (forall id :: id in tunnels ==> tunnels[id].id == id)
      && Orders(order, tunnels.Keys)
      && Indexed(index, TunnelsIn(order, tunnels))
      && Coherent(router.outRules, tunnels)
      && selectIndex < TWO_64
    }

    constructor (router: Router)
      requires router.Valid() && router.outRules == map[]
      ensures Valid() && this.router == router && tunnels == map[] && selectIndex == 0
    {
      this.router := router;
      tunnels, index, selectIndex, order := map[], map[], 0, [];
    }

    /** Registering an accepted tunnel, under the `tunnel_map` guard. Tunnel ids are fresh. */
    method Open(tunnel: Tunnel, configs: seq<OutRuleConfig>, rank: i64)
      requires Valid() && tunnel.id !in tunnels
      modifies this, router
      ensures Valid() && router.updated
      ensures tunnels == old(tunnels)[tunnel.id := tunnel] && selectIndex == old(selectIndex)
      ensures router.outRules.Keys == old(router.outRules).Keys + {tunnel.out}
      ensures router.outRules[tunnel.out].rules == IntoRules(configs, tunnel.out, rank)
      ensures Registered(router.outRules[tunnel.out].rules, configs, tunnel.out, rank)
      ensures forall o :: o in old(router.outRules) && o != tunnel.out ==> router.outRules[o] == old(router.outRules)[o]
    {
      OpenCoherent(router.outRules, tunnels, tunnel, IntoRules(configs, tunnel.out, rank));
      tunnels := tunnels[tunnel.id := tunnel];
      UpdateIndex();
      router.RegisterTunnel(tunnel.out, tunnel.id, configs, rank);
    }

    /** The close handler of a registered tunnel, under the `tunnel_map` guard. */
    method Close(id: TunnelId)
      requires Valid() && id in tunnels
      modifies this, router
      ensures Valid() && router.updated
      ensures tunnels == old(tunnels) - {id} && selectIndex == old(selectIndex)
      ensures var o := old(tunnels)[id].out;
              (o in router.outRules <==> exists other :: other in tunnels && tunnels[other].out == o)
              && (o in router.outRules ==> router.outRules[o].rules == old(router.outRules)[o].rules)
      ensures forall o :: o != old(tunnels)[id].out ==>
                (o in router.outRules <==> o in old(router.outRules))
                && (o in router.outRules ==> router.outRules[o] == old(router.outRules)[o])
    {
      var out := tunnels[id].out;
      CloseCoherent(router.outRules, tunnels, id);
      CloseKeeps(router.outRules, tunnels, id);
      tunnels := tunnels - {id};
      UpdateIndex();
      router.UnregisterTunnel(out, id);
      assert router.outRules == Closed(old(router.outRules), out, id);
    }

    method UpdateIndex()
      modifies this`index, this`order
      ensures Orders(order, tunnels.Keys)
      ensures Indexed(index, TunnelsIn(order, tunnels))
    {
      var hashOrder := HashOrder(tunnels.Keys);
      index := UpdateLabelToTunnelsMap(TunnelsIn(hashOrder, tunnels));
      order := hashOrder;
    }

    /** `active` says which tunnels still hold their permit. */
    method SelectTunnel(groups: seq<seq<Tagged>>, active: set<TunnelId>) returns (selected: Option<Selected>)
      requires Valid()
      modifies this`selectIndex
      ensures Valid() && selectIndex == (old(selectIndex) + 1) % TWO_64
      ensures selected == Select(groups, index, old(selectIndex), active)
      ensures Chosen(groups, TunnelsIn(order, tunnels), active, selected)
      ensures selected.Some? && selected.value.ViaTunnel? ==>
                var t := selected.value.tunnel; t.id in tunnels && tunnels[t.id] == t && t.id in active
    {
      var n := selectIndex;
      selectIndex := (selectIndex + 1) % TWO_64;
      selected := SelectLoop(groups, index, n, active);
      SelectRefines(groups, index, TunnelsIn(order, tunnels), n, active);
      if selected.Some? && selected.value.ViaTunnel? {
        ChosenIsInForce(groups, TunnelsIn(order, tunnels), active, selected);
        var t := selected.value.tunnel;
        ghost var i :| 0 <= i < |order| && TunnelsIn(order, tunnels)[i] == t;
        assert order[i] in tunnels;
      }
    }

    /** In every state: a label an OUT's rule can emit has an entry in the index. */
    lemma OutLabelsAreIndexed(group: nat, rule: Rule, l: Label)
      requires Valid() && router.updated
      requires group < |router.cache| && rule in router.cache[group] && l in rule.labels
      ensures rule in router.inRules
              || (l.Custom? && l in index
                  && exists id :: id in tunnels && tunnels[id].out == l.name && tunnels[id] in index[l])
    {
      var source := Source(router.inRules, router.outRules, router.order);
      CachedGroup(router.cache, source, group);
      if rule !in router.inRules {
        assert rule in OutSource(router.outRules, router.order);
        var o := OutOfRule(router.outRules, router.order, rule);
        assert o in router.outRules.Keys;
        assert rule.labels == [Custom(o)];
        assert OfOut(tunnels, o) != {};
        var id :| id in OfOut(tunnels, o);
        var all := TunnelsIn(order, tunnels);
        assert id in order;
        var i :| 0 <= i < |order| && order[i] == id;
        assert all[i] in all;
        IndexedEntry(index, all, Custom(o), tunnels[id]);
      }
    }
  }

  lemma {:induction false} OutOfRule(outs: map<OutId, OutRules>, order: seq<OutId>, rule: Rule) returns (o: OutId)
    requires forall o :: o in order ==> o in outs
    requires rule in OutSource(outs, order)
    ensures o in order && rule in outs[o].rules
  {
    if rule in outs[order[0]].rules {
      o := order[0];
    } else {
      o := OutOfRule(outs, order[1..], rule);
    }
  }

  lemma ChosenIsInForce(
      groups: seq<seq<Tagged>>, tunnels: seq<Tunnel>, active: set<TunnelId>, selected: Option<Selected>)
    requires Chosen(groups, tunnels, active, selected)
    requires selected.Some? && selected.value.ViaTunnel?
    ensures selected.value.tunnel in tunnels && selected.value.tunnel.id in active
  {
  }
}
