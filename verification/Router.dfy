/** The router object: per-OUT rules and tunnels, and the rule cache. */
module Routers {
  import opened Ids
  import opened Seqs
  import opened Rules
  import opened RuleCache
  import opened Matching
  import opened PrefixStability
  import opened RuleMeaning

  class Router {
    const inRules: seq<Rule>
    var outRules: map<OutId, OutRules>
    var cache: seq<seq<Rule>>
    ghost var updated: bool        // has the cache been computed since construction
    ghost var order: seq<OutId>    // the hash order of its last computation

    ghost predicate Valid()
      reads this
    {
      && Orders(order, outRules.Keys)
      && (updated ==> Cached(cache, Source(inRules, outRules, order)))
      && (!updated ==> cache == [inRules] && outRules == map[])
      && (forall o :: o in outRules ==> outRules[o].tunnels != {})
      && (forall o, r :: o in outRules && r in outRules[o].rules ==> r.labels == [Custom(o)])
    }

    constructor (rules: seq<Rule>)
      ensures Valid() && !updated && outRules == map[] && inRules == rules
    {
      inRules, outRules, cache, updated, order := rules, map[], [rules], false, [];
    }

    /** The matching rules in force answer by priority, and in one group before the first update; with
        none matching, the first fallback does. Fallbacks speak alone unless they mix, which an updated
        cache and the first one do differently. */
    method Match(conn: Connection) returns (groups: seq<seq<Tagged>>)
      requires Valid()
      ensures groups == Matching.Match(cache, conn)
      ensures forall i, j :: 0 <= i < j < |groups| ==> groups[i] != groups[j]
      ensures var source := Source(inRules, outRules, order);
              updated ==> (FallbackAlone(cache, source, conn) <==> !Mixed(source, conn))
      ensures !updated ==> (FallbackAlone(cache, inRules, conn) <==> !SeedMixed(inRules, conn))
      ensures var source := Source(inRules, outRules, order);
              updated && SomeMatches(source, conn) && !Mixed(source, conn) ==>
                exists ranks :: ByPriority(groups, source, conn, ranks)
      ensures forall r :: r in Source(inRules, outRules, order) <==>
                r in inRules || exists o :: o in outRules && r in outRules[o].rules
      ensures updated && !SomeMatches(Source(inRules, outRules, order), conn) ==>
                ByFallback(groups, Source(inRules, outRules, order))
      ensures !updated && SomeMatches(inRules, conn) && !SeedMixed(inRules, conn) ==> AllInOne(groups, inRules, conn)
      ensures !updated && !SomeMatches(inRules, conn) ==> ByFallback(groups, inRules)
    {
      groups := Matching.Match(cache, conn);
      UniqueDistinct(MatchGroups(cache, conn, []));
      InForce(inRules, outRules, order);
      if updated {
        FallbackExclusivity(cache, Source(inRules, outRules, order), conn);
        MatchMeaning(cache, Source(inRules, outRules, order), conn);
      } else {
        SeedExclusivity(inRules, conn);
        SeedMeaning(inRules, conn);
      }
    }

    /** How the cache changed with the rules of `out`, for any hash orders before and after. */
    ghost predicate LeadsKept(
        outs: map<OutId, OutRules>, outs': map<OutId, OutRules>, out: OutId,
        before: seq<seq<Rule>>, after: seq<seq<Rule>>)
    {
      forall p :: RulesAbove(outs, out, p) && RulesAbove(outs', out, p) ==> LeadKept(before, after, outs, out, p)
    }

    lemma RecachedKeepsLeads(
        outs: map<OutId, OutRules>, order: seq<OutId>, outs': map<OutId, OutRules>, order': seq<OutId>, out: OutId,
        before: seq<seq<Rule>>, after: seq<seq<Rule>>)
      requires CacheOf(before, inRules, outs, order) && CacheOf(after, inRules, outs', order')
      requires forall o :: o != out ==> (o in outs <==> o in outs') && (o in outs ==> outs[o].rules == outs'[o].rules)
      ensures LeadsKept(outs, outs', out, before, after)
    {
      OutChangeKeepsLead(inRules, outs, order, outs', order', out, before, after);
      assert forall p :: RulesAbove(outs, out, p) && RulesAbove(outs', out, p) ==> OnlyAbove(outs, outs', out, p);
    }

    /** Tunnels of one OUT share its rules; the latest registration's rules stand. */
    method RegisterTunnel(out: OutId, tunnel: TunnelId, configs: seq<OutRuleConfig>, rank: i64)
      requires Valid()
      modifies this
      ensures Valid() && updated
      ensures var tunnels := (if out in old(outRules) then old(outRules)[out].tunnels else {}) + {tunnel};
              outRules == old(outRules)[out := OutRules(IntoRules(configs, out, rank), tunnels)]
      ensures Registered(outRules[out].rules, configs, out, rank)
      ensures old(updated) ==> LeadsKept(old(outRules), outRules, out, old(cache), cache)
    {
      ghost var outs, hashOrder, before, known := outRules, order, cache, updated;
      var tunnels := if out in outRules then outRules[out].tunnels else {};
      outRules := outRules[out := OutRules(IntoRules(configs, out, rank), tunnels + {tunnel})];
      UpdateRulesCache();
      if known {
        RecachedKeepsLeads(outs, hashOrder, outRules, order, out, before, cache);
      }
    }

    /** The OUT's rules go with its last tunnel. */
    method UnregisterTunnel(out: OutId, tunnel: TunnelId)
      requires Valid()
      modifies this
      ensures Valid() && updated
      ensures outRules ==
              if out !in old(outRules) then old(outRules)
              else if old(outRules)[out].tunnels - {tunnel} == {} then old(outRules) - {out}
              else old(outRules)[out := OutRules(old(outRules)[out].rules, old(outRules)[out].tunnels - {tunnel})]
      ensures old(updated) ==> LeadsKept(old(outRules), outRules, out, old(cache), cache)
    {
      ghost var outs, hashOrder, before, known := outRules, order, cache, updated;
      if out in outRules {
        var tunnels := outRules[out].tunnels - {tunnel};
        if tunnels == {} {
          outRules := outRules - {out};
        } else {
          outRules := outRules[out := OutRules(outRules[out].rules, tunnels)];
        }
      }
      UpdateRulesCache();
      if known {
        RecachedKeepsLeads(outs, hashOrder, outRules, order, out, before, cache);
      }
    }

    method UpdateRulesCache()
      modifies this`cache, this`updated, this`order
      ensures updated && Orders(order, outRules.Keys)
      ensures Cached(cache, Source(inRules, outRules, order))
    {
      var hashOrder := HashOrder(outRules.Keys);
      cache := GroupRules(Source(inRules, outRules, hashOrder));
      updated, order := true, hashOrder;
    }
  }
}
