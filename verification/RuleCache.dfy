/** The priority-grouped rule cache: its definition from the rules in force, and the loop of the
    router that computes it. */
module RuleCache {
  import opened Prelude
  import opened Ids
  import opened Seqs
  import opened Rules

  datatype OutRules = OutRules(rules: seq<Rule>, tunnels: set<TunnelId>)

  datatype OutRuleConfig =
    | OutPlain(condition: Condition, negate: bool, rank: Option<i64>, tag: Option<string>)
    | OutFallback(tag: Option<string>)

  function IntoRule(config: OutRuleConfig, out: OutId, rank: i64): Rule {
    match config
    case OutPlain(condition, negate, r, tag) =>
      Plain(condition, negate, [Custom(out)], if r.Some? then r.value else rank, tag)
    case OutFallback(tag) => Fallback([Custom(out)], tag)
  }

  function IntoRules(configs: seq<OutRuleConfig>, out: OutId, rank: i64): (rules: seq<Rule>)
    ensures |rules| == |configs|
    ensures forall i :: 0 <= i < |rules| ==> rules[i] == IntoRule(configs[i], out, rank)
  {
    seq(|configs|, i requires 0 <= i < |configs| => IntoRule(configs[i], out, rank))
  }

  /** The rules an OUT's configuration stands for: each with its own priority where it has one, else the
      one of the registration, and with the OUT's label alone. */
  ghost predicate Registered(rules: seq<Rule>, configs: seq<OutRuleConfig>, out: OutId, rank: i64) {
    && |rules| == |configs|
    && forall i :: 0 <= i < |rules| ==>
         && rules[i].labels == [Custom(out)] && rules[i].tag == configs[i].tag
         && (rules[i].Plain? <==> configs[i].OutPlain?)
         && (rules[i].Plain? ==>
               && rules[i].condition == configs[i].condition && rules[i].negate == configs[i].negate
               && (configs[i].rank.Some? ==> Priority(rules[i]) == configs[i].rank.value)
               && (configs[i].rank.None? ==> Priority(rules[i]) == rank))
         && (rules[i].Fallback? ==> Priority(rules[i]) == 0x7FFF_FFFF_FFFF_FFFF)
  }

  function OutSource(outs: map<OutId, OutRules>, order: seq<OutId>): seq<Rule>
    requires forall o :: o in order ==> o in outs
  {
    if order == [] then [] else outs[order[0]].rules + OutSource(outs, order[1..])
  }

  /** The IN rules, then the rules of every live OUT. */
  function Source(inRules: seq<Rule>, outs: map<OutId, OutRules>, order: seq<OutId>): seq<Rule>
    requires forall o :: o in order ==> o in outs
  {
    inRules + OutSource(outs, order)
  }

  lemma {:induction false} OutSourceMembers(outs: map<OutId, OutRules>, order: seq<OutId>, r: Rule)
    requires forall o :: o in order ==> o in outs
    ensures r in OutSource(outs, order) <==> exists o :: o in order && r in outs[o].rules
  {
    if order != [] {
      OutSourceMembers(outs, order[1..], r);
      assert forall o :: o in order <==> o == order[0] || o in order[1..];
    }
  }

  /** The rules in force are those of the IN side and of every OUT, in any hash order. */
  lemma InForce(inRules: seq<Rule>, outs: map<OutId, OutRules>, order: seq<OutId>)
    requires Orders(order, outs.Keys)
    ensures inRules <= Source(inRules, outs, order)
    ensures forall r :: r in Source(inRules, outs, order) <==>
              r in inRules || exists o :: o in outs && r in outs[o].rules
  {
    forall r
      ensures r in OutSource(outs, order) <==> exists o :: o in outs && r in outs[o].rules
    {
      OutSourceMembers(outs, order, r);
      assert forall o :: o in order <==> o in outs.Keys;
    }
  }

  /** The definition: one group for each priority in `source`, ascending, holding exactly that
      priority's rules in their order. */
  ghost predicate Cached(cache: seq<seq<Rule>>, source: seq<Rule>) {
    && (forall i :: 0 <= i < |cache| ==> cache[i] != [])
    && (forall i :: 0 <= i < |cache| ==> cache[i] == WithKey(source, Priority, Priority(cache[i][0])))
    && (forall i, j :: 0 <= i < j < |cache| ==> Priority(cache[i][0]) < Priority(cache[j][0]))
    && (forall r :: r in source ==> exists i :: 0 <= i < |cache| && Priority(cache[i][0]) == Priority(r))
  }

  lemma WithKeySnoc(done: seq<Rule>, x: Rule, k: int)
    ensures WithKey(done + [x], Priority, k) ==
            if Priority(x) == k then WithKey(done, Priority, k) + [x] else WithKey(done, Priority, k)
  {
    WithKeyConcat(done, [x], Priority, k);
  }

  lemma AbsentKey(s: seq<Rule>, k: int)
    requires forall r :: r in s ==> Priority(r) != k
    ensures WithKey(s, Priority, k) == []
  {
  }

  lemma CachedGroup(cache: seq<seq<Rule>>, source: seq<Rule>, i: nat)
    requires Cached(cache, source) && i < |cache|
    ensures forall r :: r in cache[i] <==> r in source && Priority(r) == Priority(cache[i][0])
  {
    WithKeyMember(source, Priority, Priority(cache[i][0]));
  }

  lemma PushOntoLast(cache: seq<seq<Rule>>, done: seq<Rule>, x: Rule)
    requires Cached(cache, done) && cache != []
    requires Priority(cache[|cache| - 1][0]) == Priority(x)
    ensures Cached(cache[|cache| - 1 := cache[|cache| - 1] + [x]], done + [x])
  {
    var last := |cache| - 1;
    var next := cache[last := cache[last] + [x]];
    forall i | 0 <= i < |next|
      ensures next[i] == WithKey(done + [x], Priority, Priority(next[i][0]))
      ensures next[i] != [] && next[i][0] == cache[i][0]
    {
      WithKeySnoc(done, x, Priority(cache[i][0]));
    }
    forall r | r in done + [x]
      ensures exists i :: 0 <= i < |next| && Priority(next[i][0]) == Priority(r)
    {
      if r in done {
        var i :| 0 <= i < |cache| && Priority(cache[i][0]) == Priority(r);
        assert Priority(next[i][0]) == Priority(r);
      } else {
        assert Priority(next[last][0]) == Priority(r);
      }
    }
  }

  lemma OpenGroup(cache: seq<seq<Rule>>, done: seq<Rule>, x: Rule)
    requires Cached(cache, done)
    requires forall r :: r in done ==> Priority(r) < Priority(x)
    ensures Cached(cache + [[x]], done + [x])
  {
    var next := cache + [[x]];
    AbsentKey(done, Priority(x));
    forall i | 0 <= i < |next|
      ensures next[i] == WithKey(done + [x], Priority, Priority(next[i][0]))
      ensures i < |cache| ==> Priority(next[i][0]) < Priority(x)
    {
      WithKeySnoc(done, x, Priority(next[i][0]));
      if i < |cache| {
        CachedGroup(cache, done, i);
        assert cache[i][0] in cache[i];
      }
    }
    forall r | r in done + [x]
      ensures exists i :: 0 <= i < |next| && Priority(next[i][0]) == Priority(r)
    {
      if r in done {
        var i :| 0 <= i < |cache| && Priority(cache[i][0]) == Priority(r);
        assert next[i] == cache[i];
      } else {
        assert next[|cache|] == [x];
      }
    }
  }

  /** Stable sorting does not change what the cache of a source is. */
  lemma CachedOfSorted(cache: seq<seq<Rule>>, source: seq<Rule>)
    requires Cached(cache, SortByKey(source, Priority))
    ensures Cached(cache, source)
  {
    var sorted := SortByKey(source, Priority);
    SortSorts(source, Priority);
    forall i | 0 <= i < |cache|
      ensures cache[i] == WithKey(source, Priority, Priority(cache[i][0]))
    {
      SortIsStable(source, Priority, Priority(cache[i][0]));
    }
    forall r | r in source
      ensures r in sorted
    {
      assert r in multiset(source);
    }
  }

  lemma EarlierIsBelow(rules: seq<Rule>, i: nat)
    requires SortedByKey(rules, Priority) && i < |rules|
    requires i > 0 ==> Priority(rules[i - 1]) != Priority(rules[i])
    ensures forall r :: r in rules[..i] ==> Priority(r) < Priority(rules[i])
  {
  }

  /** Where the loop's `priority_cursor` stands. */
  function LastPriority(groups: seq<seq<Rule>>): Option<int> {
    if groups == [] || groups[|groups| - 1] == [] then None else Some(Priority(groups[|groups| - 1][0]))
  }

  /** The groups after one iteration of the loop. */
  function Placed(groups: seq<seq<Rule>>, rule: Rule): (next: seq<seq<Rule>>)
    ensures LastPriority(next) == Some(Priority(rule))
  {
    var last := |groups| - 1;
    if LastPriority(groups) == Some(Priority(rule)) then groups[last := groups[last] + [rule]]
    else groups + [[rule]]
  }

  /** One iteration of the grouping loop keeps the definition. */
  lemma PlaceRule(groups: seq<seq<Rule>>, rules: seq<Rule>, i: nat)
    requires SortedByKey(rules, Priority) && i < |rules| && Cached(groups, rules[..i])
    requires LastPriority(groups) == if i == 0 then None else Some(Priority(rules[i - 1]))
    ensures Cached(Placed(groups, rules[i]), rules[..i + 1])
  {
    assert rules[..i + 1] == rules[..i] + [rules[i]];
    if LastPriority(groups) == Some(Priority(rules[i])) {
      PushOntoLast(groups, rules[..i], rules[i]);
    } else {
      EarlierIsBelow(rules, i);
      OpenGroup(groups, rules[..i], rules[i]);
    }
  }

  /** The grouping loop of the router. */
  method GroupRules(source: seq<Rule>) returns (groups: seq<seq<Rule>>)
    ensures Cached(groups, source)
  {
    var rules := SortByKey(source, Priority);
    SortSorts(source, Priority);
    groups := [];
    var cursor: Option<int> := None;
    for i := 0 to |rules|
      invariant Cached(groups, rules[..i])
      invariant cursor == LastPriority(groups) == if i == 0 then None else Some(Priority(rules[i - 1]))
    {
      var rule := rules[i];
      var priority := Priority(rule);
      PlaceRule(groups, rules, i);
      if cursor.Some? && cursor.value == priority {
        groups := groups[|groups| - 1 := groups[|groups| - 1] + [rule]];
      } else {
        cursor := Some(priority);
        groups := groups + [[rule]];
      }
    }
    assert rules[..|rules|] == rules;
    CachedOfSorted(groups, source);
  }

  // ---- Caches of sources that agree up to a priority ----

  /** The leading groups of priority at most `p`. */
  ghost function UpTo(cache: seq<seq<Rule>>, p: int): (lead: seq<seq<Rule>>)
    requires forall i :: 0 <= i < |cache| ==> cache[i] != []
    ensures lead <= cache
    ensures forall i :: 0 <= i < |lead| ==> Priority(lead[i][0]) <= p
  {
    if cache == [] || Priority(cache[0][0]) > p then [] else [cache[0]] + UpTo(cache[1..], p)
  }

  /** `Cached`, for the part of the source above `lo`. */
  ghost predicate CachedAbove(cache: seq<seq<Rule>>, source: seq<Rule>, lo: int) {
    && (forall i :: 0 <= i < |cache| ==> cache[i] != [] && Priority(cache[i][0]) > lo)
    && (forall i :: 0 <= i < |cache| ==> cache[i] == WithKey(source, Priority, Priority(cache[i][0])))
    && (forall i, j :: 0 <= i < j < |cache| ==> Priority(cache[i][0]) < Priority(cache[j][0]))
    && (forall r :: r in source && Priority(r) > lo ==>
          exists i :: 0 <= i < |cache| && Priority(cache[i][0]) == Priority(r))
  }

  lemma CachedTail(cache: seq<seq<Rule>>, source: seq<Rule>, lo: int)
    requires CachedAbove(cache, source, lo) && cache != []
    ensures CachedAbove(cache[1..], source, Priority(cache[0][0]))
  {
  }

  lemma NonEmptyKey(source: seq<Rule>, k: int)
    ensures WithKey(source, Priority, k) != [] <==> exists r :: r in source && Priority(r) == k
  {
  }

  /** The first group of a cache is the least priority of its source above `lo`. */
  lemma HeadIsLeast(cache: seq<seq<Rule>>, source: seq<Rule>, lo: int, k: int)
    requires CachedAbove(cache, source, lo)
    requires lo < k && WithKey(source, Priority, k) != []
    ensures cache != [] && Priority(cache[0][0]) <= k
  {
    NonEmptyKey(source, k);
    var r :| r in source && Priority(r) == k;
    var i :| 0 <= i < |cache| && Priority(cache[i][0]) == Priority(r);
    assert i == 0 || Priority(cache[0][0]) < Priority(cache[i][0]);
  }

  ghost predicate SamePriorities(a: seq<seq<Rule>>, b: seq<seq<Rule>>)
    requires forall i :: 0 <= i < |a| ==> a[i] != []
    requires forall i :: 0 <= i < |b| ==> b[i] != []
  {
    |a| == |b| && forall i :: 0 <= i < |a| ==> Priority(a[i][0]) == Priority(b[i][0])
  }

  /** The same priorities, up to `p`, are in use. */
  ghost predicate SameUse(sa: seq<Rule>, sb: seq<Rule>, p: int) {
    forall q :: q <= p ==> (WithKey(sa, Priority, q) == [] <==> WithKey(sb, Priority, q) == [])
  }

  /** If one cache goes on at or below `p`, so does the other, with the same priority. */
  lemma SameHead(a: seq<seq<Rule>>, sa: seq<Rule>, b: seq<seq<Rule>>, sb: seq<Rule>, lo: int, p: int)
    requires CachedAbove(a, sa, lo) && CachedAbove(b, sb, lo) && SameUse(sa, sb, p)
    requires a != [] && Priority(a[0][0]) <= p
    ensures b != [] && b[0] != [] && Priority(b[0][0]) == Priority(a[0][0])
    ensures CachedAbove(a[1..], sa, Priority(a[0][0])) && CachedAbove(b[1..], sb, Priority(a[0][0]))
  {
    HeadIsLeast(b, sb, lo, Priority(a[0][0]));
    HeadIsLeast(a, sa, lo, Priority(b[0][0]));
    CachedTail(a, sa, lo);
    CachedTail(b, sb, lo);
  }

  predicate GoesOn(cache: seq<seq<Rule>>, p: int) {
    cache != [] && cache[0] != [] && Priority(cache[0][0]) <= p
  }

  /** Both caches go through the same priorities up to `p`. */
  predicate SameLead(a: seq<seq<Rule>>, b: seq<seq<Rule>>, p: int) {
    GoesOn(a, p) == GoesOn(b, p)
    && (GoesOn(a, p) ==> Priority(a[0][0]) == Priority(b[0][0]) && SameLead(a[1..], b[1..], p))
  }

  lemma {:induction false} AgreeAbove(
      a: seq<seq<Rule>>, sa: seq<Rule>, b: seq<seq<Rule>>, sb: seq<Rule>, lo: int, p: int)
    requires CachedAbove(a, sa, lo) && CachedAbove(b, sb, lo) && SameUse(sa, sb, p)
    ensures SameLead(a, b, p)
    decreases |a|
  {
    if GoesOn(a, p) {
      SameHead(a, sa, b, sb, lo, p);
      AgreeAbove(a[1..], sa, b[1..], sb, Priority(a[0][0]), p);
    } else if GoesOn(b, p) {
      SameHead(b, sb, a, sa, lo, p);
    }
  }

  lemma {:induction false} SameLeadPriorities(a: seq<seq<Rule>>, b: seq<seq<Rule>>, p: int)
    requires forall i :: 0 <= i < |a| ==> a[i] != []
    requires forall i :: 0 <= i < |b| ==> b[i] != []
    requires SameLead(a, b, p)
    ensures SamePriorities(UpTo(a, p), UpTo(b, p))
  {
    if GoesOn(a, p) {
      SameLeadPriorities(a[1..], b[1..], p);
    }
  }

  ghost function Below(cache: seq<seq<Rule>>): (lo: int)
    requires forall i :: 0 <= i < |cache| ==> cache[i] != []
    requires forall i, j :: 0 <= i < j < |cache| ==> Priority(cache[i][0]) < Priority(cache[j][0])
    ensures forall i :: 0 <= i < |cache| ==> Priority(cache[i][0]) > lo
  {
    if cache == [] then 0 else Priority(cache[0][0]) - 1
  }

  ghost function Above(cache: seq<seq<Rule>>): (hi: int)
    requires forall i :: 0 <= i < |cache| ==> cache[i] != []
    requires forall i, j :: 0 <= i < j < |cache| ==> Priority(cache[i][0]) < Priority(cache[j][0])
    ensures forall i :: 0 <= i < |cache| ==> Priority(cache[i][0]) <= hi
  {
    if cache == [] then 0 else Priority(cache[|cache| - 1][0])
  }

  /** Sources with the same priorities in use up to `p` have caches with the same ones. */
  lemma PrioritiesAgree(a: seq<seq<Rule>>, sa: seq<Rule>, b: seq<seq<Rule>>, sb: seq<Rule>, p: int)
    requires Cached(a, sa) && Cached(b, sb) && SameUse(sa, sb, p)
    ensures SamePriorities(UpTo(a, p), UpTo(b, p))
  {
    var lo := Min(Below(a), Below(b));
    AgreeAbove(a, sa, b, sb, lo, p);
    SameLeadPriorities(a, b, p);
  }

  /** Sources that agree on every priority up to `p` have caches that agree up to `p`. */
  lemma CachesAgree(a: seq<seq<Rule>>, sa: seq<Rule>, b: seq<seq<Rule>>, sb: seq<Rule>, p: int)
    requires Cached(a, sa) && Cached(b, sb)
    requires forall q :: q <= p ==> WithKey(sa, Priority, q) == WithKey(sb, Priority, q)
    ensures UpTo(a, p) == UpTo(b, p)
  {
    PrioritiesAgree(a, sa, b, sb, p);
    forall i | 0 <= i < |UpTo(a, p)|
      ensures UpTo(a, p)[i] == UpTo(b, p)[i]
    {
      assert UpTo(a, p)[i] == a[i] && UpTo(b, p)[i] == b[i];
    }
  }

  /** The definition determines the cache. */
  lemma CacheUnique(a: seq<seq<Rule>>, b: seq<seq<Rule>>, source: seq<Rule>)
    requires Cached(a, source) && Cached(b, source)
    ensures a == b
  {
    var p := Max(Above(a), Above(b));
    CachesAgree(a, source, b, source, p);
    WholeUpTo(a, p);
    WholeUpTo(b, p);
  }

  lemma {:induction false} WholeUpTo(cache: seq<seq<Rule>>, p: int)
    requires forall i :: 0 <= i < |cache| ==> cache[i] != [] && Priority(cache[i][0]) <= p
    ensures UpTo(cache, p) == cache
  {
    if cache != [] {
      WholeUpTo(cache[1..], p);
    }
  }

  lemma {:induction false} WithKeyCount(s: seq<Rule>, k: int, r: Rule)
    ensures multiset(WithKey(s, Priority, k))[r] == if Priority(r) == k then multiset(s)[r] else 0
  {
    if s != [] {
      WithKeyCount(s[1..], k, r);
      assert s == [s[0]] + s[1..];
    }
  }

  lemma {:induction false} GroupCount(cache: seq<seq<Rule>>, source: seq<Rule>, r: Rule)
    requires forall i :: 0 <= i < |cache| ==> cache[i] != []
    requires forall i :: 0 <= i < |cache| ==> cache[i] == WithKey(source, Priority, Priority(cache[i][0]))
    requires forall i, j :: 0 <= i < j < |cache| ==> Priority(cache[i][0]) < Priority(cache[j][0])
    ensures multiset(Flatten(cache))[r] ==
            if exists i :: 0 <= i < |cache| && Priority(cache[i][0]) == Priority(r) then multiset(source)[r] else 0
  {
    if cache != [] {
      GroupCount(cache[1..], source, r);
      WithKeyCount(source, Priority(cache[0][0]), r);
      assert forall i :: 0 < i < |cache| ==> cache[1..][i - 1] == cache[i];
    }
  }

  /** A cache holds the rules of its source, each as often, and nothing else. */
  lemma CachePermutes(cache: seq<seq<Rule>>, source: seq<Rule>)
    requires Cached(cache, source)
    ensures multiset(Flatten(cache)) == multiset(source)
  {
    forall r
      ensures multiset(Flatten(cache))[r] == multiset(source)[r]
    {
      GroupCount(cache, source, r);
      if multiset(source)[r] > 0 {
        assert r in source;
      }
    }
  }

  function Without(order: seq<OutId>, out: OutId): seq<OutId> {
    if order == [] then []
    else if order[0] == out then Without(order[1..], out)
    else [order[0]] + Without(order[1..], out)
  }

  lemma {:induction false} WithoutMembers(order: seq<OutId>, out: OutId)
    ensures forall o :: o in Without(order, out) <==> o in order && o != out
  {
    if order != [] {
      WithoutMembers(order[1..], out);
      assert forall o :: o in order <==> o == order[0] || o in order[1..];
    }
  }

  lemma {:induction false} WithoutAbsent(order: seq<OutId>, out: OutId)
    requires out !in order
    ensures Without(order, out) == order
  {
    if order != [] {
      WithoutAbsent(order[1..], out);
    }
  }

  lemma {:induction false} WithoutDistinct(order: seq<OutId>, out: OutId)
    requires forall i, j :: 0 <= i < j < |order| ==> order[i] != order[j]
    ensures var rest := Without(order, out); forall i, j :: 0 <= i < j < |rest| ==> rest[i] != rest[j]
  {
    if order != [] {
      WithoutDistinct(order[1..], out);
      WithoutMembers(order[1..], out);
      assert order[0] !in order[1..];
      assert forall i :: 0 <= i < |Without(order[1..], out)| ==> Without(order[1..], out)[i] in order[1..];
    }
  }

  /** One OUT's rules can be taken out of the iteration. */
  lemma {:induction false} PullOut(outs: map<OutId, OutRules>, order: seq<OutId>, out: OutId)
    requires out in order && forall o :: o in order ==> o in outs
    requires forall i, j :: 0 <= i < j < |order| ==> order[i] != order[j]
    ensures forall o :: o in Without(order, out) ==> o in outs
    ensures multiset(OutSource(outs, order)) ==
            multiset(outs[out].rules) + multiset(OutSource(outs, Without(order, out)))
  {
    WithoutMembers(order, out);
    if order[0] == out {
      WithoutAbsent(order[1..], out);
    } else {
      WithoutMembers(order[1..], out);
      PullOut(outs, order[1..], out);
      assert Without(order, out)[1..] == Without(order[1..], out);
    }
  }

  lemma EmptyOrder(order: seq<OutId>, keys: set<OutId>)
    requires Orders(order, keys)
    ensures order == [] <==> keys == {}
  {
    if order != [] {
      assert order[0] in keys;
    }
    if k :| k in keys {
      assert k in order;
    }
  }

  lemma {:induction false} OrderPermutes(outs: map<OutId, OutRules>, a: seq<OutId>, b: seq<OutId>, keys: set<OutId>)
    requires Orders(a, keys) && Orders(b, keys) && keys <= outs.Keys
    ensures multiset(OutSource(outs, a)) == multiset(OutSource(outs, b))
    decreases |a|
  {
    EmptyOrder(a, keys);
    EmptyOrder(b, keys);
    if a != [] {
      var out := a[0];
      assert out in keys;
      PullOut(outs, b, out);
      WithoutMembers(b, out);
      WithoutDistinct(b, out);
      assert Orders(a[1..], keys - {out}) by {
        forall o
          ensures o in a[1..] <==> o in keys - {out}
        {
          assert o in a <==> o == out || o in a[1..];
        }
      }
      OrderPermutes(outs, a[1..], Without(b, out), keys - {out});
    }
  }

  /** Hash order only permutes the rules inside each group. */
  lemma HashOrderPermutesGroups(
      inRules: seq<Rule>, outs: map<OutId, OutRules>, a: seq<OutId>, b: seq<OutId>,
      cache: seq<seq<Rule>>, cache': seq<seq<Rule>>)
    requires Orders(a, outs.Keys) && Orders(b, outs.Keys)
    requires Cached(cache, Source(inRules, outs, a)) && Cached(cache', Source(inRules, outs, b))
    ensures SamePriorities(cache, cache')
    ensures forall i :: 0 <= i < |cache| ==> multiset(cache[i]) == multiset(cache'[i])
  {
    var sa, sb := Source(inRules, outs, a), Source(inRules, outs, b);
    OrderPermutes(outs, a, b, outs.Keys);
    assert multiset(sa) == multiset(sb);
    forall k
      ensures multiset(WithKey(sa, Priority, k)) == multiset(WithKey(sb, Priority, k))
    {
      SameCounts(sa, sb, k);
    }
    var p := Max(Above(cache), Above(cache'));
    forall q
      ensures WithKey(sa, Priority, q) == [] <==> WithKey(sb, Priority, q) == []
    {
      assert |multiset(WithKey(sa, Priority, q))| == |multiset(WithKey(sb, Priority, q))|;
    }
    PrioritiesAgree(cache, sa, cache', sb, p);
    WholeUpTo(cache, p);
    WholeUpTo(cache', p);
  }

  lemma SameCounts(sa: seq<Rule>, sb: seq<Rule>, k: int)
    requires multiset(sa) == multiset(sb)
    ensures multiset(WithKey(sa, Priority, k)) == multiset(WithKey(sb, Priority, k))
  {
    forall r
      ensures multiset(WithKey(sa, Priority, k))[r] == multiset(WithKey(sb, Priority, k))[r]
    {
      WithKeyCount(sa, k, r);
      WithKeyCount(sb, k, r);
    }
  }
}
