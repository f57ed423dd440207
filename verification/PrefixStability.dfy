/** What registering and unregistering an OUT leaves of the leading label groups, and what it owes
    to the order the hash map happens to iterate in. */
module PrefixStability {
  import opened Prelude
  import opened Ids
  import opened Seqs
  import opened Rules
  import opened RuleCache
  import opened Matching

  // ---- Caches that agree up to a priority ----

  /** Caches that agree up to `p` give every connection the same leading groups. */
  lemma PrefixStable(
      a: seq<seq<Rule>>, sa: seq<Rule>, b: seq<seq<Rule>>, sb: seq<Rule>, p: int, conn: Connection)
    requires Cached(a, sa) && Cached(b, sb) && p < I64_MAX
    requires forall q :: q <= p ==> WithKey(sa, Priority, q) == WithKey(sb, Priority, q)
    ensures UpTo(a, p) == UpTo(b, p)
    ensures Match(UpTo(a, p), conn) == Unique(PlainGroups(UpTo(a, p), conn))
    ensures Match(UpTo(a, p), conn) <= Match(a, conn)
    ensures Match(UpTo(a, p), conn) <= Match(b, conn)
  {
    CachesAgree(a, sa, b, sb, p);
    LeadingGroups(a, sa, p, conn);
    LeadingGroups(b, sb, p, conn);
  }

  lemma LeadIsPrefix(lead: seq<seq<Rule>>, rest: seq<seq<Rule>>, conn: Connection)
    ensures Match(lead, conn) <= Match(lead + rest, conn)
  {
    MatchGroupsConcat(lead, rest, conn, []);
    var raw := MatchGroups(lead, conn, []);
    MatchGroupsGrows(rest, conn, raw);
    var all := MatchGroups(lead + rest, conn, []);
    assert all == raw + all[|raw|..];
    UniquePrefix(raw, all[|raw|..]);
  }

  /** Below the fallbacks the leading groups contribute what their plain rules emit. */
  lemma LeadIsPlain(cache: seq<seq<Rule>>, source: seq<Rule>, p: int, conn: Connection)
    requires Cached(cache, source) && p < I64_MAX
    ensures MatchGroups(UpTo(cache, p), conn, []) == PlainGroups(UpTo(cache, p), conn)
  {
    var lead := UpTo(cache, p);
    forall i, r: Rule | 0 <= i < |lead| && r in lead[i]
      ensures r.Plain?
    {
      CachedGroup(cache, source, i);
      assert lead[i] == cache[i];
    }
    AllPlainIntro(lead);
    PlainShape(lead, conn, []);
    assert [] + PlainGroups(lead, conn) == PlainGroups(lead, conn);
  }

  lemma LeadGrows(cache: seq<seq<Rule>>, p: int, conn: Connection)
    requires forall i :: 0 <= i < |cache| ==> cache[i] != []
    ensures Match(UpTo(cache, p), conn) <= Match(cache, conn)
  {
    var lead := UpTo(cache, p);
    assert cache == lead + cache[|lead|..];
    LeadIsPrefix(lead, cache[|lead|..], conn);
  }

  lemma LeadingGroups(cache: seq<seq<Rule>>, source: seq<Rule>, p: int, conn: Connection)
    requires Cached(cache, source) && p < I64_MAX
    ensures Match(UpTo(cache, p), conn) == Unique(PlainGroups(UpTo(cache, p), conn))
    ensures Match(UpTo(cache, p), conn) <= Match(cache, conn)
  {
    LeadIsPlain(cache, source, p, conn);
    LeadGrows(cache, p, conn);
  }

  /** An OUT with no rule of priority `q` can be left out of the iteration. */
  lemma {:induction false} WithoutKeepsKey(outs: map<OutId, OutRules>, order: seq<OutId>, out: OutId, q: int)
    requires forall o :: o in order ==> o in outs
    requires out in outs ==> forall r :: r in outs[out].rules ==> Priority(r) != q
    ensures forall o :: o in Without(order, out) ==> o in outs
    ensures WithKey(OutSource(outs, order), Priority, q) == WithKey(OutSource(outs, Without(order, out)), Priority, q)
  {
    WithoutMembers(order, out);
    if order != [] {
      WithoutKeepsKey(outs, order[1..], out, q);
      WithKeyConcat(outs[order[0]].rules, OutSource(outs, order[1..]), Priority, q);
      if order[0] == out {
        AbsentKey(outs[out].rules, q);
      } else {
        WithKeyConcat(outs[order[0]].rules, OutSource(outs, Without(order[1..], out)), Priority, q);
        assert Without(order, out)[1..] == Without(order[1..], out);
      }
    }
  }

  lemma {:induction false} SameRulesSameSource(a: map<OutId, OutRules>, b: map<OutId, OutRules>, order: seq<OutId>)
    requires forall o :: o in order ==> o in a && o in b && a[o].rules == b[o].rules
    ensures OutSource(a, order) == OutSource(b, order)
  {
    if order != [] {
      SameRulesSameSource(a, b, order[1..]);
    }
  }

  // ---- Any change of one OUT, in any two hash orders ----

  ghost predicate RulesAbove(outs: map<OutId, OutRules>, out: OutId, p: int) {
    out in outs ==> forall r :: r in outs[out].rules ==> Priority(r) > p
  }

  /** A cache the router may compute from these rules: some hash order gives it. */
  ghost predicate CacheOf(
      cache: seq<seq<Rule>>, inRules: seq<Rule>, outs: map<OutId, OutRules>, order: seq<OutId>)
  {
    Orders(order, outs.Keys) && Cached(cache, Source(inRules, outs, order))
  }

  /** The rules of every OUT but `out` are the same, and those of `out` lie above `p`. */
  ghost predicate OnlyAbove(outs: map<OutId, OutRules>, outs': map<OutId, OutRules>, out: OutId, p: int) {
    && (forall o :: o != out ==> (o in outs <==> o in outs') && (o in outs ==> outs[o].rules == outs'[o].rules))
    && RulesAbove(outs, out, p) && RulesAbove(outs', out, p)
  }

  ghost predicate NonEmptyGroups(cache: seq<seq<Rule>>) {
    forall i :: 0 <= i < |cache| ==> cache[i] != []
  }

  ghost predicate Permuted(a: seq<seq<Rule>>, b: seq<seq<Rule>>) {
    |a| == |b| && forall i :: 0 <= i < |a| ==> multiset(a[i]) == multiset(b[i])
  }

  /** Up to `p` the caches go through the same priorities, each group a permutation of the other. */
  ghost predicate PermutedLead(a: seq<seq<Rule>>, b: seq<seq<Rule>>, p: int) {
    && NonEmptyGroups(a) && NonEmptyGroups(b)
    && SamePriorities(UpTo(a, p), UpTo(b, p)) && Permuted(UpTo(a, p), UpTo(b, p))
  }

  lemma WithoutOrders(order: seq<OutId>, keys: set<OutId>, out: OutId)
    requires Orders(order, keys)
    ensures Orders(Without(order, out), keys - {out})
  {
    WithoutMembers(order, out);
    WithoutDistinct(order, out);
  }

  /** The source without the changed OUT, in the order left over. */
  lemma OthersOnly(
      inRules: seq<Rule>, outs: map<OutId, OutRules>, outs': map<OutId, OutRules>, order: seq<OutId>, out: OutId,
      p: int, q: int)
    requires OnlyAbove(outs, outs', out, p) && Orders(order, outs'.Keys) && q <= p
    ensures Orders(Without(order, out), outs.Keys - {out})
    ensures forall o :: o in Without(order, out) ==> o in outs
    ensures WithKey(Source(inRules, outs', order), Priority, q)
         == WithKey(inRules, Priority, q) + WithKey(OutSource(outs, Without(order, out)), Priority, q)
  {
    WithoutOrders(order, outs'.Keys, out);
    assert outs'.Keys - {out} == outs.Keys - {out};
    WithoutKeepsKey(outs', order, out, q);
    SameRulesSameSource(outs, outs', Without(order, out));
    WithKeyConcat(inRules, OutSource(outs', order), Priority, q);
  }

  lemma SameAbove(outs: map<OutId, OutRules>, outs': map<OutId, OutRules>, out: OutId, p: int)
    requires OnlyAbove(outs, outs', out, p)
    ensures OnlyAbove(outs, outs, out, p)
  {
  }

  /** Each priority up to `p` holds the same rules as often, whatever the orders. */
  lemma PermutedKey(
      inRules: seq<Rule>, outs: map<OutId, OutRules>, order: seq<OutId>, outs': map<OutId, OutRules>,
      order': seq<OutId>, out: OutId, p: int, q: int)
    requires OnlyAbove(outs, outs', out, p) && Orders(order, outs.Keys) && Orders(order', outs'.Keys) && q <= p
    ensures multiset(WithKey(Source(inRules, outs, order), Priority, q))
         == multiset(WithKey(Source(inRules, outs', order'), Priority, q))
  {
    SameAbove(outs, outs', out, p);
    OthersOnly(inRules, outs, outs, order, out, p, q);
    OthersOnly(inRules, outs, outs', order', out, p, q);
    OrderPermutes(outs, Without(order, out), Without(order', out), outs.Keys - {out});
    SameCounts(OutSource(outs, Without(order, out)), OutSource(outs, Without(order', out)), q);
  }

  lemma SameUseOfPermuted(sa: seq<Rule>, sb: seq<Rule>, p: int)
    requires forall q :: q <= p ==> multiset(WithKey(sa, Priority, q)) == multiset(WithKey(sb, Priority, q))
    ensures SameUse(sa, sb, p)
  {
    forall q | q <= p
      ensures WithKey(sa, Priority, q) == [] <==> WithKey(sb, Priority, q) == []
    {
      assert |multiset(WithKey(sa, Priority, q))| == |multiset(WithKey(sb, Priority, q))|;
    }
  }

  /** Whatever the hash orders, up to `p` only the order inside a group can change. */
  lemma LeadPermuted(
      inRules: seq<Rule>, outs: map<OutId, OutRules>, order: seq<OutId>, outs': map<OutId, OutRules>,
      order': seq<OutId>, out: OutId, p: int, cache: seq<seq<Rule>>, cache': seq<seq<Rule>>)
    requires CacheOf(cache, inRules, outs, order) && CacheOf(cache', inRules, outs', order')
    requires OnlyAbove(outs, outs', out, p)
    ensures PermutedLead(cache, cache', p)
  {
    var source, source' := Source(inRules, outs, order), Source(inRules, outs', order');
    forall q | q <= p
      ensures multiset(WithKey(source, Priority, q)) == multiset(WithKey(source', Priority, q))
    {
      PermutedKey(inRules, outs, order, outs', order', out, p, q);
    }
    SameUseOfPermuted(source, source', p);
    PrioritiesAgree(cache, source, cache', source', p);
    forall i | 0 <= i < |UpTo(cache, p)|
      ensures multiset(UpTo(cache, p)[i]) == multiset(UpTo(cache', p)[i])
    {
      assert UpTo(cache, p)[i] == cache[i] && UpTo(cache', p)[i] == cache'[i];
    }
  }

  // ---- The labels of permuted groups ----

  lemma {:induction false} PlainLabelsConcat(a: seq<Rule>, b: seq<Rule>, conn: Connection)
    ensures PlainLabels(a + b, conn) == PlainLabels(a, conn) + PlainLabels(b, conn)
  {
    if a == [] {
      assert a + b == b;
    } else {
      assert (a + b)[1..] == a[1..] + b;
      PlainLabelsConcat(a[1..], b, conn);
      Regroup(if Emits(a[0], conn) then TagAll(a[0]) else [], PlainLabels(a[1..], conn), PlainLabels(b, conn));
    }
  }

  lemma TakeOut(s: seq<Rule>, k: nat)
    requires k < |s|
    ensures multiset(s[..k] + s[k + 1..]) == multiset(s) - multiset{s[k]}
  {
    assert s == s[..k] + [s[k]] + s[k + 1..];
  }

  lemma LabelsTakeOut(s: seq<Rule>, k: nat, conn: Connection)
    requires k < |s|
    ensures multiset(PlainLabels(s, conn))
         == multiset(PlainLabels([s[k]], conn)) + multiset(PlainLabels(s[..k] + s[k + 1..], conn))
  {
    assert s == s[..k] + ([s[k]] + s[k + 1..]);
    PlainLabelsConcat(s[..k], [s[k]] + s[k + 1..], conn);
    PlainLabelsConcat([s[k]], s[k + 1..], conn);
    PlainLabelsConcat(s[..k], s[k + 1..], conn);
  }

  lemma SameTakeOut(a: seq<Rule>, b: seq<Rule>, k: nat)
    requires multiset(a) == multiset(b) && a != [] && k < |b| && b[k] == a[0]
    ensures multiset(a[1..]) == multiset(b[..k] + b[k + 1..])
  {
    TakeOut(a, 0);
    TakeOut(b, k);
    assert a[..0] + a[1..] == a[1..];
  }

  lemma SameLabelsTakeOut(a: seq<Rule>, b: seq<Rule>, k: nat, conn: Connection)
    requires a != [] && k < |b| && b[k] == a[0]
    requires multiset(PlainLabels(a[1..], conn)) == multiset(PlainLabels(b[..k] + b[k + 1..], conn))
    ensures multiset(PlainLabels(a, conn)) == multiset(PlainLabels(b, conn))
  {
    assert a[..0] + a[1..] == a[1..];
    LabelsTakeOut(a, 0, conn);
    LabelsTakeOut(b, k, conn);
  }

  lemma {:induction false} PlainLabelsPermute(a: seq<Rule>, b: seq<Rule>, conn: Connection)
    requires multiset(a) == multiset(b)
    ensures multiset(PlainLabels(a, conn)) == multiset(PlainLabels(b, conn))
    decreases |a|
  {
    if a == [] {
      assert |multiset(a)| == |multiset(b)|;
    } else {
      assert a[0] in multiset(b);
      var k :| 0 <= k < |b| && b[k] == a[0];
      SameTakeOut(a, b, k);
      PlainLabelsPermute(a[1..], b[..k] + b[k + 1..], conn);
      SameLabelsTakeOut(a, b, k, conn);
    }
  }

  /** The label lists are permutations of each other, place by place. */
  ghost predicate PermutedLabels(a: seq<seq<Tagged>>, b: seq<seq<Tagged>>) {
    |a| == |b| && forall i :: 0 <= i < |a| ==> multiset(a[i]) == multiset(b[i])
  }

  ghost predicate SameLabelsEach(a: seq<seq<Rule>>, b: seq<seq<Rule>>, conn: Connection) {
    |a| == |b| && forall i :: 0 <= i < |a| ==> PlainLabels(a[i], conn) == PlainLabels(b[i], conn)
  }

  lemma {:induction false} PlainGroupsPermute(a: seq<seq<Rule>>, b: seq<seq<Rule>>, conn: Connection)
    requires Permuted(a, b)
    ensures PermutedLabels(PlainGroups(a, conn), PlainGroups(b, conn))
  {
    if a != [] {
      PlainGroupsPermute(a[1..], b[1..], conn);
      PlainLabelsPermute(a[0], b[0], conn);
      SameEmptiness(PlainLabels(a[0], conn), PlainLabels(b[0], conn));
      assert PlainGroups(a, conn) == Group(PlainLabels(a[0], conn)) + PlainGroups(a[1..], conn);
      assert PlainGroups(b, conn) == Group(PlainLabels(b[0], conn)) + PlainGroups(b[1..], conn);
    }
  }

  /** Permuted groups give the same label lists just when each group does. */
  lemma {:induction false} PlainGroupsEqual(a: seq<seq<Rule>>, b: seq<seq<Rule>>, conn: Connection)
    requires Permuted(a, b)
    ensures PlainGroups(a, conn) == PlainGroups(b, conn) <==> SameLabelsEach(a, b, conn)
  {
    if a != [] {
      PlainGroupsEqual(a[1..], b[1..], conn);
      PlainLabelsPermute(a[0], b[0], conn);
      SameEmptiness(PlainLabels(a[0], conn), PlainLabels(b[0], conn));
      HeadAndTail(a, b, conn);
      PrependGroup(
        PlainLabels(a[0], conn), PlainGroups(a[1..], conn), PlainLabels(b[0], conn), PlainGroups(b[1..], conn));
    }
  }

  lemma SameEmptiness(a: seq<Tagged>, b: seq<Tagged>)
    requires multiset(a) == multiset(b)
    ensures a == [] <==> b == []
  {
    assert |multiset(a)| == |multiset(b)|;
  }

  lemma PrependGroup(la: seq<Tagged>, a: seq<seq<Tagged>>, lb: seq<Tagged>, b: seq<seq<Tagged>>)
    requires la == [] <==> lb == []
    ensures Group(la) + a == Group(lb) + b <==> la == lb && a == b
  {
    if la == [] {
      assert Group(la) + a == a && Group(lb) + b == b;
    } else {
      assert (Group(la) + a)[0] == la && (Group(la) + a)[1..] == a;
      assert (Group(lb) + b)[0] == lb && (Group(lb) + b)[1..] == b;
    }
  }

  lemma HeadAndTail(a: seq<seq<Rule>>, b: seq<seq<Rule>>, conn: Connection)
    requires a != [] && |a| == |b|
    ensures SameLabelsEach(a, b, conn) <==>
              PlainLabels(a[0], conn) == PlainLabels(b[0], conn) && SameLabelsEach(a[1..], b[1..], conn)
  {
    forall i | 0 < i < |a|
      ensures a[i] == a[1..][i - 1] && b[i] == b[1..][i - 1]
    {
    }
    if SameLabelsEach(a, b, conn) {
      forall i | 0 <= i < |a[1..]|
        ensures PlainLabels(a[1..][i], conn) == PlainLabels(b[1..][i], conn)
      {
        assert a[1..][i] == a[i + 1];
      }
    }
  }

  // ---- When the order decides ----

  /** The rules that count, in order. */
  function Counted(rules: seq<Rule>, counts: Rule -> bool): seq<Rule> {
    if rules == [] then [] else (if counts(rules[0]) then [rules[0]] else []) + Counted(rules[1..], counts)
  }

  /** No priority up to `p` holds rules that count of two different OUTs other than `out`. */
  ghost predicate OneOutEach(outs: map<OutId, OutRules>, out: OutId, p: int, counts: Rule -> bool) {
    forall a, b, r, s ::
      && a in outs && b in outs && a != b && a != out && b != out
      && r in outs[a].rules && s in outs[b].rules && counts(r) && counts(s) && Priority(r) <= p
      ==> Priority(r) != Priority(s)
  }

  predicate AnyRule(r: Rule) {
    true
  }

  function EmitsFor(conn: Connection): Rule -> bool {
    r => Emits(r, conn)
  }

  /** An OUT's rules carry its own label and no other (`into_rule` of the OUT configuration). */
  ghost predicate NamedRules(outs: map<OutId, OutRules>) {
    forall o, r :: o in outs && r in outs[o].rules ==> r.labels == [Custom(o)]
  }

  lemma {:induction false} CountedConcat(a: seq<Rule>, b: seq<Rule>, counts: Rule -> bool)
    ensures Counted(a + b, counts) == Counted(a, counts) + Counted(b, counts)
  {
    if a == [] {
      assert a + b == b;
    } else {
      assert (a + b)[1..] == a[1..] + b;
      CountedConcat(a[1..], b, counts);
      Regroup(if counts(a[0]) then [a[0]] else [], Counted(a[1..], counts), Counted(b, counts));
    }
  }

  lemma {:induction false} CountedMembers(rules: seq<Rule>, counts: Rule -> bool)
    ensures forall r :: r in Counted(rules, counts) <==> r in rules && counts(r)
  {
    if rules != [] {
      CountedMembers(rules[1..], counts);
      assert forall r :: r in rules <==> r == rules[0] || r in rules[1..];
    }
  }

  lemma {:induction false} CountedAny(rules: seq<Rule>)
    ensures Counted(rules, AnyRule) == rules
  {
    if rules != [] {
      CountedAny(rules[1..]);
    }
  }

  lemma {:induction false} CountedEmitters(rules: seq<Rule>, conn: Connection)
    ensures PlainLabels(Counted(rules, EmitsFor(conn)), conn) == PlainLabels(rules, conn)
  {
    if rules != [] {
      CountedEmitters(rules[1..], conn);
      var head := if Emits(rules[0], conn) then [rules[0]] else [];
      PlainLabelsConcat(head, Counted(rules[1..], EmitsFor(conn)), conn);
      OneRuleLabels(rules[0], conn);
    }
  }

  lemma OneRuleLabels(r: Rule, conn: Connection)
    ensures PlainLabels([r], conn) == if Emits(r, conn) then TagAll(r) else []
  {
    assert [r][1..] == [];
  }

  /** What the OUTs in this order contribute to priority `q`. */
  ghost function Contribution(
      outs: map<OutId, OutRules>, order: seq<OutId>, q: int, counts: Rule -> bool): seq<Rule>
    requires forall o :: o in order ==> o in outs
  {
    Counted(WithKey(OutSource(outs, order), Priority, q), counts)
  }

  lemma ContributionStep(outs: map<OutId, OutRules>, order: seq<OutId>, q: int, counts: Rule -> bool)
    requires order != [] && forall o :: o in order ==> o in outs
    ensures Contribution(outs, order, q, counts)
         == Counted(WithKey(outs[order[0]].rules, Priority, q), counts) + Contribution(outs, order[1..], q, counts)
  {
    WithKeyConcat(outs[order[0]].rules, OutSource(outs, order[1..]), Priority, q);
    var first, rest := WithKey(outs[order[0]].rules, Priority, q), WithKey(OutSource(outs, order[1..]), Priority, q);
    CountedConcat(first, rest, counts);
  }

  /** Does this OUT have a rule of priority `q` that counts? */
  ghost predicate Contributes(outs: map<OutId, OutRules>, o: OutId, q: int, counts: Rule -> bool)
    requires o in outs
  {
    exists r :: r in outs[o].rules && Priority(r) == q && counts(r)
  }

  lemma ContributesNothing(outs: map<OutId, OutRules>, o: OutId, q: int, counts: Rule -> bool)
    requires o in outs
    ensures Contributes(outs, o, q, counts) <==> Counted(WithKey(outs[o].rules, Priority, q), counts) != []
  {
    var mine := WithKey(outs[o].rules, Priority, q);
    WithKeyMember(outs[o].rules, Priority, q);
    CountedMembers(mine, counts);
    if Counted(mine, counts) != [] {
      assert Counted(mine, counts)[0] in Counted(mine, counts);
    }
  }

  lemma {:induction false} NoneContribute(
      outs: map<OutId, OutRules>, order: seq<OutId>, q: int, counts: Rule -> bool)
    requires forall o :: o in order ==> o in outs && !Contributes(outs, o, q, counts)
    ensures Contribution(outs, order, q, counts) == []
  {
    if order != [] {
      ContributionStep(outs, order, q, counts);
      ContributesNothing(outs, order[0], q, counts);
      NoneContribute(outs, order[1..], q, counts);
    }
  }

  lemma {:induction false} OneContributes(
      outs: map<OutId, OutRules>, order: seq<OutId>, q: int, counts: Rule -> bool, a: OutId)
    requires a in order && forall o :: o in order ==> o in outs && (o != a ==> !Contributes(outs, o, q, counts))
    requires forall i, j :: 0 <= i < j < |order| ==> order[i] != order[j]
    ensures Contribution(outs, order, q, counts) == Counted(WithKey(outs[a].rules, Priority, q), counts)
  {
    ContributionStep(outs, order, q, counts);
    if order[0] == a {
      NoneContribute(outs, order[1..], q, counts);
    } else {
      ContributesNothing(outs, order[0], q, counts);
      OneContributes(outs, order[1..], q, counts, a);
    }
  }

  /** With one contributor to a priority at most, the order does not matter there. */
  lemma SameContribution(
      outs: map<OutId, OutRules>, s: seq<OutId>, t: seq<OutId>, out: OutId, p: int, q: int, counts: Rule -> bool)
    requires OneOutEach(outs, out, p, counts) && q <= p
    requires Orders(s, outs.Keys - {out}) && Orders(t, outs.Keys - {out})
    requires forall o :: o in s || o in t ==> o in outs
    ensures Contribution(outs, s, q, counts) == Contribution(outs, t, q, counts)
  {
    if a :| a in s && Contributes(outs, a, q, counts) {
      assert a in outs.Keys - {out};
      OneContributes(outs, s, q, counts, a);
      OneContributes(outs, t, q, counts, a);
    } else {
      assert forall o :: o in t ==> o in outs.Keys - {out};
      NoneContribute(outs, s, q, counts);
      NoneContribute(outs, t, q, counts);
    }
  }

  /** Up to `p`, what counts comes in the same order whatever the hash orders. */
  lemma SameCounted(
      inRules: seq<Rule>, outs: map<OutId, OutRules>, order: seq<OutId>, outs': map<OutId, OutRules>,
      order': seq<OutId>, out: OutId, p: int, q: int, counts: Rule -> bool)
    requires OnlyAbove(outs, outs', out, p) && Orders(order, outs.Keys) && Orders(order', outs'.Keys) && q <= p
    requires OneOutEach(outs, out, p, counts)
    ensures Counted(WithKey(Source(inRules, outs, order), Priority, q), counts)
         == Counted(WithKey(Source(inRules, outs', order'), Priority, q), counts)
  {
    SameAbove(outs, outs', out, p);
    OthersOnly(inRules, outs, outs, order, out, p, q);
    OthersOnly(inRules, outs, outs', order', out, p, q);
    SameContribution(outs, Without(order, out), Without(order', out), out, p, q, counts);
    CountedConcat(WithKey(inRules, Priority, q), WithKey(OutSource(outs, Without(order, out)), Priority, q), counts);
    CountedConcat(WithKey(inRules, Priority, q), WithKey(OutSource(outs, Without(order', out)), Priority, q), counts);
  }

  // ---- Orders that show the difference ----

  ghost predicate CachedSoFar(groups: seq<seq<Rule>>, rules: seq<Rule>, i: nat)
    requires i <= |rules|
  {
    Cached(groups, rules[..i]) && LastPriority(groups) == if i == 0 then None else Some(Priority(rules[i - 1]))
  }

  lemma NothingCached(rules: seq<Rule>)
    ensures CachedSoFar([], rules, 0)
  {
  }

  lemma OneMoreCached(groups: seq<seq<Rule>>, rules: seq<Rule>, i: nat)
    requires SortedByKey(rules, Priority) && i < |rules| && CachedSoFar(groups, rules, i)
    ensures CachedSoFar(Placed(groups, rules[i]), rules, i + 1)
  {
    PlaceRule(groups, rules, i);
  }

  /** Placing one rule after another makes the cache of any sorted source. */
  lemma {:induction false} CacheOfSorted(rules: seq<Rule>, i: nat) returns (groups: seq<seq<Rule>>)
    requires SortedByKey(rules, Priority) && i <= |rules|
    ensures CachedSoFar(groups, rules, i)
  {
    groups := [];
    NothingCached(rules);
    for j := 0 to i
      invariant CachedSoFar(groups, rules, j)
    {
      OneMoreCached(groups, rules, j);
      groups := Placed(groups, rules[j]);
    }
  }

  lemma CacheExists(source: seq<Rule>) returns (cache: seq<seq<Rule>>)
    ensures Cached(cache, source)
  {
    var rules := SortByKey(source, Priority);
    SortSorts(source, Priority);
    cache := CacheOfSorted(rules, |rules|);
    assert rules[..|rules|] == rules;
    CachedOfSorted(cache, source);
  }

  lemma {:induction false} OrderExists(keys: set<OutId>) returns (order: seq<OutId>)
    ensures Orders(order, keys)
    decreases keys
  {
    order := [];
    if k :| k in keys {
      order := OrderExists(keys - {k});
      order := [k] + order;
    }
  }

  /** The hash map may put any OUT first. */
  lemma CacheWithFirst(inRules: seq<Rule>, outs: map<OutId, OutRules>, a: OutId)
      returns (order: seq<OutId>, cache: seq<seq<Rule>>)
    requires a in outs
    ensures CacheOf(cache, inRules, outs, order) && order != [] && order[0] == a
  {
    order := OrderExists(outs.Keys - {a});
    order := [a] + order;
    cache := CacheExists(Source(inRules, outs, order));
  }

  /** The first rule an OUT contributes names it, and comes right after what the IN rules do. */
  lemma FirstNamesOut(
      inRules: seq<Rule>, outs: map<OutId, OutRules>, order: seq<OutId>, q: int, counts: Rule -> bool)
    requires NamedRules(outs) && order != [] && forall o :: o in order ==> o in outs
    requires Contributes(outs, order[0], q, counts)
    ensures var all := Counted(WithKey(Source(inRules, outs, order), Priority, q), counts);
            var start := |Counted(WithKey(inRules, Priority, q), counts)|;
            start < |all| && all[..start] == Counted(WithKey(inRules, Priority, q), counts)
            && all[start].labels == [Custom(order[0])]
  {
    var mine := Counted(WithKey(outs[order[0]].rules, Priority, q), counts);
    WithKeyConcat(inRules, OutSource(outs, order), Priority, q);
    CountedConcat(WithKey(inRules, Priority, q), WithKey(OutSource(outs, order), Priority, q), counts);
    ContributionStep(outs, order, q, counts);
    ContributesNothing(outs, order[0], q, counts);
    CountedMembers(WithKey(outs[order[0]].rules, Priority, q), counts);
    WithKeyMember(outs[order[0]].rules, Priority, q);
    assert mine[0] in mine;
  }

  /** The leading groups, if these are groups. */
  ghost function Lead(cache: seq<seq<Rule>>, p: int): seq<seq<Rule>> {
    if NonEmptyGroups(cache) then UpTo(cache, p) else []
  }

  /** Where the rules of a priority stand among the leading groups. */
  lemma PlaceOfKey(cache: seq<seq<Rule>>, source: seq<Rule>, p: int, q: int) returns (i: nat)
    requires Cached(cache, source) && q <= p && WithKey(source, Priority, q) != []
    ensures i < |UpTo(cache, p)| && UpTo(cache, p)[i] == WithKey(source, Priority, q)
    ensures Priority(UpTo(cache, p)[i][0]) == q
  {
    NonEmptyKey(source, q);
    var r :| r in source && Priority(r) == q;
    i :| 0 <= i < |cache| && Priority(cache[i][0]) == Priority(r);
    UpToCut(cache, p);
    assert UpTo(cache, p)[i] == cache[i];
  }

  /** Two hash orders between which a priority's counting rules come differently. */
  lemma OrdersDiffer(
      inRules: seq<Rule>, outs: map<OutId, OutRules>, outs': map<OutId, OutRules>, out: OutId, p: int,
      counts: Rule -> bool, a: OutId, b: OutId, q: int)
      returns (order: seq<OutId>, order': seq<OutId>, cache: seq<seq<Rule>>, cache': seq<seq<Rule>>, k: nat)
    requires OnlyAbove(outs, outs', out, p) && NamedRules(outs) && NamedRules(outs') && q <= p
    requires a in outs && b in outs && a != out && b != out && a != b
    requires Contributes(outs, a, q, counts) && Contributes(outs, b, q, counts)
    ensures CacheOf(cache, inRules, outs, order) && CacheOf(cache', inRules, outs', order')
    ensures var x := Counted(WithKey(Source(inRules, outs, order), Priority, q), counts);
            var y := Counted(WithKey(Source(inRules, outs', order'), Priority, q), counts);
            k < |x| && k < |y| && x[..k] == y[..k] && x[k].labels == [Custom(a)] && y[k].labels == [Custom(b)]
  {
    order, cache := CacheWithFirst(inRules, outs, a);
    order', cache' := CacheWithFirst(inRules, outs', b);
    FirstNamesOut(inRules, outs, order, q, counts);
    var r :| r in outs[b].rules && Priority(r) == q && counts(r);
    assert r in outs'[b].rules;
    FirstNamesOut(inRules, outs', order', q, counts);
    k := |Counted(WithKey(inRules, Priority, q), counts)|;
  }

  ghost predicate RulesFixed(
      inRules: seq<Rule>, outs: map<OutId, OutRules>, outs': map<OutId, OutRules>, p: int)
  {
    forall order, order', cache, cache' ::
      CacheOf(cache, inRules, outs, order) && CacheOf(cache', inRules, outs', order')
      ==> Lead(cache, p) == Lead(cache', p)
  }

  /** What `match` produces from the leading groups, before `unique`. */
  ghost function LeadLabels(cache: seq<seq<Rule>>, p: int, conn: Connection): seq<seq<Tagged>> {
    MatchGroups(Lead(cache, p), conn, [])
  }

  ghost predicate LabelsFixed(
      inRules: seq<Rule>, outs: map<OutId, OutRules>, outs': map<OutId, OutRules>, p: int, conn: Connection)
  {
    forall order, order', cache, cache' ::
      CacheOf(cache, inRules, outs, order) && CacheOf(cache', inRules, outs', order')
      ==> LeadLabels(cache, p, conn) == LeadLabels(cache', p, conn)
  }

  lemma LeadIsUpTo(cache: seq<seq<Rule>>, source: seq<Rule>, p: int)
    requires Cached(cache, source)
    ensures Lead(cache, p) == UpTo(cache, p)
  {
  }

  /** With one other OUT to a priority at most, no hash order changes the leading groups. */
  lemma OneOutFixes(
      inRules: seq<Rule>, outs: map<OutId, OutRules>, order: seq<OutId>, outs': map<OutId, OutRules>,
      order': seq<OutId>, out: OutId, p: int, cache: seq<seq<Rule>>, cache': seq<seq<Rule>>)
    requires CacheOf(cache, inRules, outs, order) && CacheOf(cache', inRules, outs', order')
    requires OnlyAbove(outs, outs', out, p) && OneOutEach(outs, out, p, AnyRule)
    ensures UpTo(cache, p) == UpTo(cache', p)
  {
    var source, source' := Source(inRules, outs, order), Source(inRules, outs', order');
    forall q | q <= p
      ensures WithKey(source, Priority, q) == WithKey(source', Priority, q)
    {
      SameCounted(inRules, outs, order, outs', order', out, p, q, AnyRule);
      CountedAny(WithKey(source, Priority, q));
      CountedAny(WithKey(source', Priority, q));
    }
    CachesAgree(cache, source, cache', source', p);
  }

  /** Different rules of one priority make different leading groups. */
  lemma DifferentLead(
      cache: seq<seq<Rule>>, source: seq<Rule>, cache': seq<seq<Rule>>, source': seq<Rule>, p: int, q: int)
    requires Cached(cache, source) && Cached(cache', source') && q <= p
    requires WithKey(source, Priority, q) != [] && WithKey(source, Priority, q) != WithKey(source', Priority, q)
    ensures Lead(cache, p) != Lead(cache', p)
  {
    LeadIsUpTo(cache, source, p);
    LeadIsUpTo(cache', source', p);
    var i := PlaceOfKey(cache, source, p, q);
    if i < |UpTo(cache', p)| {
      assert UpTo(cache', p)[i] == cache'[i] == WithKey(source', Priority, Priority(cache'[i][0]));
    }
  }

  /** Exactly when the leading groups of rules do not depend on hash order: when no priority up to `p`
      holds rules of two other OUTs. */
  lemma RulesFixedExactly(
      inRules: seq<Rule>, outs: map<OutId, OutRules>, outs': map<OutId, OutRules>, out: OutId, p: int)
    requires OnlyAbove(outs, outs', out, p) && NamedRules(outs) && NamedRules(outs')
    ensures RulesFixed(inRules, outs, outs', p) <==> OneOutEach(outs, out, p, AnyRule)
  {
    if OneOutEach(outs, out, p, AnyRule) {
      forall order, order', cache, cache' |
          CacheOf(cache, inRules, outs, order) && CacheOf(cache', inRules, outs', order')
        ensures Lead(cache, p) == Lead(cache', p)
      {
        OneOutFixes(inRules, outs, order, outs', order', out, p, cache, cache');
      }
    } else {
      RulesMove(inRules, outs, outs', out, p);
    }
  }

  lemma RulesMove(
      inRules: seq<Rule>, outs: map<OutId, OutRules>, outs': map<OutId, OutRules>, out: OutId, p: int)
    requires OnlyAbove(outs, outs', out, p) && NamedRules(outs) && NamedRules(outs')
    requires !OneOutEach(outs, out, p, AnyRule)
    ensures !RulesFixed(inRules, outs, outs', p)
  {
    var a, b, r, s :|
      && a in outs && b in outs && a != b && a != out && b != out
      && r in outs[a].rules && s in outs[b].rules && Priority(r) <= p && Priority(r) == Priority(s);
    var q := Priority(r);
    var order, order', cache, cache', k := OrdersDiffer(inRules, outs, outs', out, p, AnyRule, a, b, q);
    var source, source' := Source(inRules, outs, order), Source(inRules, outs', order');
    CountedAny(WithKey(source, Priority, q));
    CountedAny(WithKey(source', Priority, q));
    assert WithKey(source, Priority, q)[k].labels != WithKey(source', Priority, q)[k].labels;
    DifferentLead(cache, source, cache', source', p, q);
  }

  // ---- The same for the labels of a connection ----

  lemma LabelsOfLead(cache: seq<seq<Rule>>, source: seq<Rule>, p: int, conn: Connection)
    requires Cached(cache, source) && p < I64_MAX
    ensures LeadLabels(cache, p, conn) == PlainGroups(UpTo(cache, p), conn)
  {
    LeadIsUpTo(cache, source, p);
    LeadIsPlain(cache, source, p, conn);
  }

  lemma SameKeyEach(
      cache: seq<seq<Rule>>, source: seq<Rule>, cache': seq<seq<Rule>>, source': seq<Rule>, p: int, i: nat)
    requires Cached(cache, source) && Cached(cache', source') && PermutedLead(cache, cache', p) && i < |UpTo(cache, p)|
    ensures var q := Priority(UpTo(cache, p)[i][0]);
            && q <= p
            && UpTo(cache, p)[i] == WithKey(source, Priority, q) && UpTo(cache', p)[i] == WithKey(source', Priority, q)
  {
    assert UpTo(cache, p)[i] == cache[i] && UpTo(cache', p)[i] == cache'[i];
  }

  /** With one other OUT that emits to a priority at most, no hash order changes the label groups. */
  lemma OneOutFixesLabels(
      inRules: seq<Rule>, outs: map<OutId, OutRules>, order: seq<OutId>, outs': map<OutId, OutRules>,
      order': seq<OutId>, out: OutId, p: int, cache: seq<seq<Rule>>, cache': seq<seq<Rule>>, conn: Connection)
    requires CacheOf(cache, inRules, outs, order) && CacheOf(cache', inRules, outs', order') && p < I64_MAX
    requires OnlyAbove(outs, outs', out, p) && OneOutEach(outs, out, p, EmitsFor(conn))
    ensures LeadLabels(cache, p, conn) == LeadLabels(cache', p, conn)
  {
    var source, source' := Source(inRules, outs, order), Source(inRules, outs', order');
    LeadPermuted(inRules, outs, order, outs', order', out, p, cache, cache');
    forall i | 0 <= i < |UpTo(cache, p)|
      ensures PlainLabels(UpTo(cache, p)[i], conn) == PlainLabels(UpTo(cache', p)[i], conn)
    {
      var q := Priority(UpTo(cache, p)[i][0]);
      SameKeyEach(cache, source, cache', source', p, i);
      SameCounted(inRules, outs, order, outs', order', out, p, q, EmitsFor(conn));
      CountedEmitters(WithKey(source, Priority, q), conn);
      CountedEmitters(WithKey(source', Priority, q), conn);
    }
    PlainGroupsEqual(UpTo(cache, p), UpTo(cache', p), conn);
    LabelsOfLead(cache, source, p, conn);
    LabelsOfLead(cache', source', p, conn);
  }

  /** Where emitting rules with labels of their own first differ, so do the labels. */
  lemma LabelsDiffer(x: seq<Rule>, y: seq<Rule>, k: nat, conn: Connection)
    requires k < |x| && k < |y| && x[..k] == y[..k] && Emits(x[k], conn) && Emits(y[k], conn)
    requires x[k].labels[0] != y[k].labels[0]
    ensures PlainLabels(x, conn) != PlainLabels(y, conn)
  {
    var at := |PlainLabels(x[..k], conn)|;
    LabelAt(x, k, conn);
    LabelAt(y, k, conn);
    assert at < |PlainLabels(x, conn)| && PlainLabels(x, conn)[at].target == x[k].labels[0];
  }

  lemma LabelAt(x: seq<Rule>, k: nat, conn: Connection)
    requires k < |x| && Emits(x[k], conn)
    ensures var at := |PlainLabels(x[..k], conn)|;
            at < |PlainLabels(x, conn)| && PlainLabels(x, conn)[at].target == x[k].labels[0]
  {
    assert x == x[..k] + ([x[k]] + x[k + 1..]);
    PlainLabelsConcat(x[..k], [x[k]] + x[k + 1..], conn);
    PlainLabelsConcat([x[k]], x[k + 1..], conn);
    OneRuleLabels(x[k], conn);
  }

  /** Different labels of one priority make different leading label groups. */
  lemma DifferentLabels(
      cache: seq<seq<Rule>>, source: seq<Rule>, cache': seq<seq<Rule>>, source': seq<Rule>, p: int, q: int,
      conn: Connection)
    requires Cached(cache, source) && Cached(cache', source') && PermutedLead(cache, cache', p)
    requires q <= p < I64_MAX && WithKey(source, Priority, q) != []
    requires PlainLabels(WithKey(source, Priority, q), conn) != PlainLabels(WithKey(source', Priority, q), conn)
    ensures LeadLabels(cache, p, conn) != LeadLabels(cache', p, conn)
  {
    var i := PlaceOfKey(cache, source, p, q);
    SameKeyEach(cache, source, cache', source', p, i);
    PlainGroupsEqual(UpTo(cache, p), UpTo(cache', p), conn);
    LabelsOfLead(cache, source, p, conn);
    LabelsOfLead(cache', source', p, conn);
  }

  lemma EmittersDiffer(mine: seq<Rule>, mine': seq<Rule>, k: nat, conn: Connection)
    requires var x, y := Counted(mine, EmitsFor(conn)), Counted(mine', EmitsFor(conn));
             k < |x| && k < |y| && x[..k] == y[..k] && |x[k].labels| == |y[k].labels| == 1
             && x[k].labels[0] != y[k].labels[0]
    ensures PlainLabels(mine, conn) != PlainLabels(mine', conn)
  {
    var x, y := Counted(mine, EmitsFor(conn)), Counted(mine', EmitsFor(conn));
    CountedMembers(mine, EmitsFor(conn));
    CountedMembers(mine', EmitsFor(conn));
    assert x[k] in x && y[k] in y;
    LabelsDiffer(x, y, k, conn);
    CountedEmitters(mine, conn);
    CountedEmitters(mine', conn);
  }

  lemma LabelsMoveAt(
      inRules: seq<Rule>, outs: map<OutId, OutRules>, outs': map<OutId, OutRules>, out: OutId, p: int, conn: Connection,
      a: OutId, b: OutId, q: int)
    requires OnlyAbove(outs, outs', out, p) && NamedRules(outs) && NamedRules(outs') && q <= p < I64_MAX
    requires a in outs && b in outs && a != out && b != out && a != b
    requires Contributes(outs, a, q, EmitsFor(conn)) && Contributes(outs, b, q, EmitsFor(conn))
    ensures !LabelsFixed(inRules, outs, outs', p, conn)
  {
    var order, order', cache, cache', k := OrdersDiffer(inRules, outs, outs', out, p, EmitsFor(conn), a, b, q);
    var source, source' := Source(inRules, outs, order), Source(inRules, outs', order');
    EmittersDiffer(WithKey(source, Priority, q), WithKey(source', Priority, q), k, conn);
    LeadPermuted(inRules, outs, order, outs', order', out, p, cache, cache');
    DifferentLabels(cache, source, cache', source', p, q, conn);
  }

  lemma LabelsMove(
      inRules: seq<Rule>, outs: map<OutId, OutRules>, outs': map<OutId, OutRules>, out: OutId, p: int, conn: Connection)
    requires OnlyAbove(outs, outs', out, p) && NamedRules(outs) && NamedRules(outs') && p < I64_MAX
    requires !OneOutEach(outs, out, p, EmitsFor(conn))
    ensures !LabelsFixed(inRules, outs, outs', p, conn)
  {
    var a, b, r, s :|
      && a in outs && b in outs && a != b && a != out && b != out
      && r in outs[a].rules && s in outs[b].rules && Emits(r, conn) && Emits(s, conn)
      && Priority(r) <= p && Priority(r) == Priority(s);
    LabelsMoveAt(inRules, outs, outs', out, p, conn, a, b, Priority(r));
  }

  /** Exactly when the leading label groups of a connection do not depend on hash order: when no
      priority up to `p` holds rules of two other OUTs that match it. */
  lemma LabelsFixedExactly(
      inRules: seq<Rule>, outs: map<OutId, OutRules>, outs': map<OutId, OutRules>, out: OutId, p: int, conn: Connection)
    requires OnlyAbove(outs, outs', out, p) && NamedRules(outs) && NamedRules(outs') && p < I64_MAX
    ensures LabelsFixed(inRules, outs, outs', p, conn) <==> OneOutEach(outs, out, p, EmitsFor(conn))
  {
    if OneOutEach(outs, out, p, EmitsFor(conn)) {
      forall order, order', cache, cache' |
          CacheOf(cache, inRules, outs, order) && CacheOf(cache', inRules, outs', order')
        ensures LeadLabels(cache, p, conn) == LeadLabels(cache', p, conn)
      {
        OneOutFixesLabels(inRules, outs, order, outs', order', out, p, cache, cache', conn);
      }
    } else {
      LabelsMove(inRules, outs, outs', out, p, conn);
    }
  }

  // ---- Registering and unregistering ----

  /** What a change of `out` leaves of the leading groups: their rules, and, where no two other OUTs
      share a priority, their order too. */
  ghost predicate LeadKept(
      before: seq<seq<Rule>>, after: seq<seq<Rule>>, outs: map<OutId, OutRules>, out: OutId, p: int)
  {
    PermutedLead(before, after, p) && (OneOutEach(outs, out, p, AnyRule) ==> Lead(before, p) == Lead(after, p))
  }

  /** Opening or closing tunnels of an OUT whose rules all lie above `p`, for any two hash orders:
      every connection gets the same leading label groups up to the order inside each, and exactly the
      same ones where no two other OUTs match it at one priority, or these keep their order. */
  lemma OutChangeKeepsPrefix(
      inRules: seq<Rule>, outs: map<OutId, OutRules>, order: seq<OutId>, outs': map<OutId, OutRules>,
      order': seq<OutId>, out: OutId, p: int, cache: seq<seq<Rule>>, cache': seq<seq<Rule>>, conn: Connection)
    requires CacheOf(cache, inRules, outs, order) && CacheOf(cache', inRules, outs', order')
    requires OnlyAbove(outs, outs', out, p) && p < I64_MAX
    ensures LeadKept(cache, cache', outs, out, p)
    ensures PermutedLabels(LeadLabels(cache, p, conn), LeadLabels(cache', p, conn))
    ensures OneOutEach(outs, out, p, EmitsFor(conn)) || Without(order, out) == Without(order', out) ==>
              LeadLabels(cache, p, conn) == LeadLabels(cache', p, conn)
    ensures Unique(LeadLabels(cache, p, conn)) <= Match(cache, conn)
    ensures Unique(LeadLabels(cache', p, conn)) <= Match(cache', conn)
  {
    var source, source' := Source(inRules, outs, order), Source(inRules, outs', order');
    KeptAtOneP(inRules, outs, order, outs', order', out, p, cache, cache');
    PlainGroupsPermute(UpTo(cache, p), UpTo(cache', p), conn);
    LabelsOfLead(cache, source, p, conn);
    LabelsOfLead(cache', source', p, conn);
    LeadingGroups(cache, source, p, conn);
    LeadingGroups(cache', source', p, conn);
    if OneOutEach(outs, out, p, EmitsFor(conn)) {
      OneOutFixesLabels(inRules, outs, order, outs', order', out, p, cache, cache', conn);
    } else if Without(order, out) == Without(order', out) {
      SameOrderFixes(inRules, outs, order, outs', order', out, p, cache, cache');
    }
  }

  lemma KeptAtOneP(
      inRules: seq<Rule>, outs: map<OutId, OutRules>, order: seq<OutId>, outs': map<OutId, OutRules>,
      order': seq<OutId>, out: OutId, p: int, cache: seq<seq<Rule>>, cache': seq<seq<Rule>>)
    requires CacheOf(cache, inRules, outs, order) && CacheOf(cache', inRules, outs', order')
    requires OnlyAbove(outs, outs', out, p)
    ensures LeadKept(cache, cache', outs, out, p)
  {
    LeadPermuted(inRules, outs, order, outs', order', out, p, cache, cache');
    if OneOutEach(outs, out, p, AnyRule) {
      OneOutFixes(inRules, outs, order, outs', order', out, p, cache, cache');
    }
  }

  lemma SameOrderFixes(
      inRules: seq<Rule>, outs: map<OutId, OutRules>, order: seq<OutId>, outs': map<OutId, OutRules>,
      order': seq<OutId>, out: OutId, p: int, cache: seq<seq<Rule>>, cache': seq<seq<Rule>>)
    requires CacheOf(cache, inRules, outs, order) && CacheOf(cache', inRules, outs', order')
    requires OnlyAbove(outs, outs', out, p) && Without(order, out) == Without(order', out)
    ensures UpTo(cache, p) == UpTo(cache', p)
  {
    var source, source' := Source(inRules, outs, order), Source(inRules, outs', order');
    SameAbove(outs, outs', out, p);
    forall q | q <= p
      ensures WithKey(source, Priority, q) == WithKey(source', Priority, q)
    {
      OthersOnly(inRules, outs, outs, order, out, p, q);
      OthersOnly(inRules, outs, outs', order', out, p, q);
    }
    CachesAgree(cache, source, cache', source', p);
  }

  /** For every `p` at once, as the router's methods state it. */
  lemma OutChangeKeepsLead(
      inRules: seq<Rule>, outs: map<OutId, OutRules>, order: seq<OutId>, outs': map<OutId, OutRules>,
      order': seq<OutId>, out: OutId, cache: seq<seq<Rule>>, cache': seq<seq<Rule>>)
    requires CacheOf(cache, inRules, outs, order) && CacheOf(cache', inRules, outs', order')
    ensures forall p :: OnlyAbove(outs, outs', out, p) ==> LeadKept(cache, cache', outs, out, p)
  {
    forall p | OnlyAbove(outs, outs', out, p)
      ensures LeadKept(cache, cache', outs, out, p)
    {
      KeptAtOneP(inRules, outs, order, outs', order', out, p, cache, cache');
    }
  }

  function MatchAll(o: OutId, rank: i64): Rule {
    Plain(Address(None, None), false, [Custom(o)], rank, None)
  }

  lemma PairCached(x: Rule, y: Rule)
    requires Priority(x) == Priority(y)
    ensures Cached([[x, y]], [x, y]) && UpTo([[x, y]], Priority(x)) == [[x, y]]
  {
    assert WithKey([y], Priority, Priority(x)) == [y] + WithKey([y][1..], Priority, Priority(x));
    assert [x, y][1..] == [y] && [y][1..] == [];
    assert WithKey([x, y], Priority, Priority(x)) == [x] + [y];
    var cache: seq<seq<Rule>> := [[x, y]];
    assert cache[0][0] == x && cache[1..] == [];
  }

  lemma PairMatched(a: OutId, b: OutId, rank: i64, conn: Connection)
    ensures Match([[MatchAll(a, rank), MatchAll(b, rank)]], conn)
         == [[Tagged(Custom(a), None), Tagged(Custom(b), None)]]
  {
    var x, y := MatchAll(a, rank), MatchAll(b, rank);
    assert PlainLabels([x] + [y], conn) == TagAll(x) + TagAll(y) by {
      PlainLabelsConcat([x], [y], conn);
      OneRuleLabels(x, conn);
      OneRuleLabels(y, conn);
    }
    assert [x] + [y] == [x, y];
    assert Emits(x, conn) && Emits(y, conn);
    GroupShape([x, y], conn, false, []);
    assert FirstEffective([x, y], conn) == Some(x);
    assert GroupLabels([x, y], conn, false, []) == TagAll(x) + TagAll(y);
    OneGroup([x, y], conn, []);
    assert MatchGroups([[x, y]], conn, []) == [TagAll(x) + TagAll(y)];
    SingletonUnique(TagAll(x) + TagAll(y));
    assert TagAll(x) + TagAll(y) == [Tagged(Custom(a), None), Tagged(Custom(b), None)];
  }

  lemma TwoOuts(outs: map<OutId, OutRules>, a: OutId, b: OutId)
    requires a in outs && b in outs
    ensures OutSource(outs, [a, b]) == outs[a].rules + outs[b].rules
  {
    assert [a, b][1..] == [b] && [b][1..] == [];
    assert OutSource(outs, [b]) == outs[b].rules + OutSource(outs, [b][1..]);
  }

  lemma ThreeOuts(outs: map<OutId, OutRules>, a: OutId, b: OutId, c: OutId)
    requires a in outs && b in outs && c in outs && outs[c].rules == []
    ensures OutSource(outs, [a, b, c]) == outs[a].rules + outs[b].rules
  {
    var order := [a, b, c];
    TwoOuts(outs, b, c);
    assert order[1..] == [b, c];
    assert OutSource(outs, order) == outs[a].rules + OutSource(outs, order[1..]);
  }

  /** Two OUTs with one rule each, of the same priority; with and without a third one that has none. */
  function TwoRules(third: bool): map<OutId, OutRules> {
    var two := map["a" := OutRules([MatchAll("a", 5)], {1}), "b" := OutRules([MatchAll("b", 5)], {2})];
    if third then two["c" := OutRules([], {3})] else two
  }

  lemma TwoRulesSources()
    ensures Source([], TwoRules(false), ["a", "b"]) == [MatchAll("a", 5), MatchAll("b", 5)]
    ensures Source([], TwoRules(true), ["b", "a", "c"]) == [MatchAll("b", 5), MatchAll("a", 5)]
  {
    TwoOuts(TwoRules(false), "a", "b");
    ThreeOuts(TwoRules(true), "b", "a", "c");
  }

  /** The cache of one group of two rules, and what every connection gets from it. */
  lemma PairLead(a: OutId, b: OutId, conn: Connection)
    ensures Cached([[MatchAll(a, 5), MatchAll(b, 5)]], [MatchAll(a, 5), MatchAll(b, 5)])
    ensures Match(Lead([[MatchAll(a, 5), MatchAll(b, 5)]], 5), conn)
         == [[Tagged(Custom(a), None), Tagged(Custom(b), None)]]
  {
    PairCached(MatchAll(a, 5), MatchAll(b, 5));
    PairMatched(a, b, 5, conn);
  }

  lemma ThirdHasNoRules()
    ensures OnlyAbove(TwoRules(false), TwoRules(true), "c", 5)
  {
  }

  lemma TwoRulesOrders()
    ensures Orders(["a", "b"], TwoRules(false).Keys) && Orders(["b", "a", "c"], TwoRules(true).Keys)
  {
  }

  /** Registering an OUT without any rule can change which of two others comes first, when the hash map
      iterates them in another order afterwards. */
  lemma HashOrderMovesLabels(conn: Connection) returns (cache: seq<seq<Rule>>, cache': seq<seq<Rule>>)
    ensures OnlyAbove(TwoRules(false), TwoRules(true), "c", 5)
    ensures CacheOf(cache, [], TwoRules(false), ["a", "b"]) && CacheOf(cache', [], TwoRules(true), ["b", "a", "c"])
    ensures Match(Lead(cache, 5), conn) == [[Tagged(Custom("a"), None), Tagged(Custom("b"), None)]]
    ensures Match(Lead(cache', 5), conn) == [[Tagged(Custom("b"), None), Tagged(Custom("a"), None)]]
  {
    cache, cache' := [[MatchAll("a", 5), MatchAll("b", 5)]], [[MatchAll("b", 5), MatchAll("a", 5)]];
    ThirdHasNoRules();
    TwoRulesOrders();
    TwoRulesSources();
    PairLead("a", "b", conn);
    PairLead("b", "a", conn);
  }
}
