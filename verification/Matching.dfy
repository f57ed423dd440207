/** Matching a connection against the rule cache: nested folds, then `unique`. */
module Matching {
  import opened Prelude
  import opened Ids
  import opened Seqs
  import opened Rules
  import opened RuleCache

  datatype Tagged = Tagged(target: Label, tag: Option<string>)

  function TagAll(r: Rule): (tagged: seq<Tagged>)
    ensures |tagged| == |r.labels|
  {
    seq(|r.labels|, i requires 0 <= i < |r.labels| => Tagged(r.labels[i], r.tag))
  }

  /** The inner fold, over the rules of one group. */
  function GroupLabels(rules: seq<Rule>, conn: Connection, already: bool, labels: seq<Tagged>): seq<Tagged> {
    if rules == [] then labels
    else
      var matching := MatchRule(rules[0], conn, already || labels != []);
      GroupLabels(rules[1..], conn, already, if matching.Some? then labels + TagAll(rules[0]) else labels)
  }

  /** The outer fold, over the groups. */
  function MatchGroups(groups: seq<seq<Rule>>, conn: Connection, acc: seq<seq<Tagged>>): seq<seq<Tagged>> {
    if groups == [] then acc
    else
      var labels := GroupLabels(groups[0], conn, acc != [], []);
      MatchGroups(groups[1..], conn, if labels != [] then acc + [labels] else acc)
  }

  function Match(groups: seq<seq<Rule>>, conn: Connection): seq<seq<Tagged>> {
    Unique(MatchGroups(groups, conn, []))
  }

  // ---- What the plain rules alone contribute ----

  predicate Emits(r: Rule, conn: Connection) {
    r.Plain? && r.labels != [] && PlainMatches(r, conn)
  }

  function PlainLabels(rules: seq<Rule>, conn: Connection): seq<Tagged> {
    if rules == [] then []
    else (if Emits(rules[0], conn) then TagAll(rules[0]) else []) + PlainLabels(rules[1..], conn)
  }

  function PlainGroups(groups: seq<seq<Rule>>, conn: Connection): seq<seq<Tagged>> {
    if groups == [] then []
    else
      var labels := PlainLabels(groups[0], conn);
      (if labels != [] then [labels] else []) + PlainGroups(groups[1..], conn)
  }

  /** The first rule that would add labels if nothing had matched before it. */
  function FirstEffective(rules: seq<Rule>, conn: Connection): Option<Rule> {
    if rules == [] then None
    else if rules[0].labels != [] && (rules[0].Fallback? || PlainMatches(rules[0], conn)) then Some(rules[0])
    else FirstEffective(rules[1..], conn)
  }

  function FirstFallback(rules: seq<Rule>): Option<Rule> {
    if rules == [] then None
    else if rules[0].Fallback? && rules[0].labels != [] then Some(rules[0])
    else FirstFallback(rules[1..])
  }

  function FallbackLead(rules: seq<Rule>, conn: Connection): seq<Tagged> {
    var first := FirstEffective(rules, conn);
    if first.Some? && first.value.Fallback? then TagAll(first.value) else []
  }

  /** The fold over a group, in closed form. */
  lemma {:induction false} GroupShape(rules: seq<Rule>, conn: Connection, already: bool, labels: seq<Tagged>)
    ensures GroupLabels(rules, conn, already, labels) ==
            labels + (if already || labels != [] then [] else FallbackLead(rules, conn)) + PlainLabels(rules, conn)
    decreases |rules|
  {
    if rules != [] {
      var matching := MatchRule(rules[0], conn, already || labels != []);
      var tags, plain := TagAll(rules[0]), PlainLabels(rules[1..], conn);
      GroupShape(rules[1..], conn, already, if matching.Some? then labels + tags else labels);
      if Emits(rules[0], conn) {
        assert labels + tags != [] && labels + tags + [] == labels + tags && labels + [] == labels;
        Regroup(labels, tags, plain);
      } else {
        assert [] + plain == plain && (matching.Some? && rules[0].labels == [] ==> labels + tags == labels);
      }
    }
  }

  lemma {:induction false} NoFallbackNoLead(rules: seq<Rule>, conn: Connection)
    requires forall r :: r in rules ==> r.Plain?
    ensures FallbackLead(rules, conn) == []
  {
    if rules != [] {
      assert rules[0] in rules;
      NoFallbackNoLead(rules[1..], conn);
    }
  }

  lemma {:induction false} MatchGroupsConcat(
      a: seq<seq<Rule>>, b: seq<seq<Rule>>, conn: Connection, acc: seq<seq<Tagged>>)
    ensures MatchGroups(a + b, conn, acc) == MatchGroups(b, conn, MatchGroups(a, conn, acc))
    decreases |a|
  {
    if a == [] {
      assert a + b == b;
    } else {
      assert (a + b)[1..] == a[1..] + b;
      var labels := GroupLabels(a[0], conn, acc != [], []);
      MatchGroupsConcat(a[1..], b, conn, if labels != [] then acc + [labels] else acc);
    }
  }

  lemma {:induction false} MatchGroupsGrows(groups: seq<seq<Rule>>, conn: Connection, acc: seq<seq<Tagged>>)
    ensures acc <= MatchGroups(groups, conn, acc)
    decreases |groups|
  {
    if groups != [] {
      var labels := GroupLabels(groups[0], conn, acc != [], []);
      MatchGroupsGrows(groups[1..], conn, if labels != [] then acc + [labels] else acc);
    }
  }

  ghost predicate AllPlain(groups: seq<seq<Rule>>) {
    groups == [] || ((forall r :: r in groups[0] ==> r.Plain?) && AllPlain(groups[1..]))
  }

  lemma {:induction false} AllPlainIntro(groups: seq<seq<Rule>>)
    requires forall i, r :: 0 <= i < |groups| && r in groups[i] ==> r.Plain?
    ensures AllPlain(groups)
  {
    if groups != [] {
      forall i, r: Rule | 0 <= i < |groups[1..]| && r in groups[1..][i]
        ensures r.Plain?
      {
        assert r in groups[i + 1];
      }
      AllPlainIntro(groups[1..]);
    }
  }

  /** Groups without fallbacks contribute their plain labels, whatever came before. */
  lemma {:induction false} PlainShape(groups: seq<seq<Rule>>, conn: Connection, acc: seq<seq<Tagged>>)
    requires AllPlain(groups)
    ensures MatchGroups(groups, conn, acc) == acc + PlainGroups(groups, conn)
    decreases |groups|
  {
    if groups != [] {
      GroupShape(groups[0], conn, acc != [], []);
      NoFallbackNoLead(groups[0], conn);
      var labels := GroupLabels(groups[0], conn, acc != [], []);
      assert labels == PlainLabels(groups[0], conn);
      PlainShape(groups[1..], conn, if labels != [] then acc + [labels] else acc);
      assert acc + ([labels] + PlainGroups(groups[1..], conn)) == acc + [labels] + PlainGroups(groups[1..], conn);
    }
  }

  lemma {:induction false} PlainGroupsConcat(a: seq<seq<Rule>>, b: seq<seq<Rule>>, conn: Connection)
    ensures PlainGroups(a + b, conn) == PlainGroups(a, conn) + PlainGroups(b, conn)
  {
    if a == [] {
      assert a + b == b;
    } else {
      assert (a + b)[1..] == a[1..] + b;
      PlainGroupsConcat(a[1..], b, conn);
    }
  }

  lemma {:induction false} PlainLabelsEmpty(rules: seq<Rule>, conn: Connection)
    ensures PlainLabels(rules, conn) == [] <==> forall r :: r in rules ==> !Emits(r, conn)
  {
    if rules != [] {
      PlainLabelsEmpty(rules[1..], conn);
      assert forall r :: r in rules <==> r == rules[0] || r in rules[1..];
      assert Emits(rules[0], conn) ==> TagAll(rules[0]) != [];
    }
  }

  lemma {:induction false} PlainGroupsEmpty(groups: seq<seq<Rule>>, conn: Connection)
    ensures PlainGroups(groups, conn) == [] <==>
            forall i, r :: 0 <= i < |groups| && r in groups[i] ==> !Emits(r, conn)
  {
    if groups != [] {
      PlainLabelsEmpty(groups[0], conn);
      PlainGroupsEmpty(groups[1..], conn);
      assert forall i :: 0 < i < |groups| ==> groups[i] == groups[1..][i - 1];
    }
  }

  // ---- Fallbacks ----

  /** The groups below i64::MAX, and the rules at i64::MAX, where the fallbacks are. */
  ghost function Low(cache: seq<seq<Rule>>): seq<seq<Rule>>
    requires forall i :: 0 <= i < |cache| ==> cache[i] != []
  {
    UpTo(cache, I64_MAX - 1)
  }

  function Top(source: seq<Rule>): seq<Rule> {
    WithKey(source, Priority, I64_MAX)
  }

  lemma {:induction false} UpToCut(cache: seq<seq<Rule>>, p: int)
    requires forall i :: 0 <= i < |cache| ==> cache[i] != []
    requires forall i, j :: 0 <= i < j < |cache| ==> Priority(cache[i][0]) < Priority(cache[j][0])
    ensures forall i :: |UpTo(cache, p)| <= i < |cache| ==> Priority(cache[i][0]) > p
  {
    if cache != [] && Priority(cache[0][0]) <= p {
      UpToCut(cache[1..], p);
      assert forall i :: 0 < i < |cache| ==> cache[i] == cache[1..][i - 1];
    }
  }

  lemma {:induction false} AscendingGap(cache: seq<seq<Rule>>, i: nat, j: nat)
    requires i <= j < |cache|
    requires forall i :: 0 <= i < |cache| ==> cache[i] != []
    requires forall i, j :: 0 <= i < j < |cache| ==> Priority(cache[i][0]) < Priority(cache[j][0])
    ensures Priority(cache[i][0]) + j - i <= Priority(cache[j][0])
    decreases j
  {
    if i < j {
      AscendingGap(cache, i, j - 1);
    }
  }

  lemma LowThenTop(cache: seq<seq<Rule>>, source: seq<Rule>)
    requires Cached(cache, source)
    ensures cache == Low(cache) + (if Top(source) == [] then [] else [Top(source)])
  {
    var k := |Low(cache)|;
    UpToCut(cache, I64_MAX - 1);
    if k < |cache| {
      AscendingGap(cache, k, |cache| - 1);
      assert cache[k] == Top(source);
      assert cache == cache[..k] + [cache[k]];
    } else {
      NoTop(cache, source);
    }
  }

  lemma NoTop(cache: seq<seq<Rule>>, source: seq<Rule>)
    requires Cached(cache, source)
    requires forall i :: 0 <= i < |cache| ==> Priority(cache[i][0]) < I64_MAX
    ensures Top(source) == []
  {
    AbsentKey(source, I64_MAX);
  }

  lemma LowMember(cache: seq<seq<Rule>>, source: seq<Rule>, i: nat, r: Rule)
    requires Cached(cache, source) && i < |Low(cache)| && r in Low(cache)[i]
    ensures r.Plain? && r in source && Priority(r) != I64_MAX
  {
    CachedGroup(cache, source, i);
    assert Low(cache)[i] == cache[i];
  }

  lemma MemberOfLow(cache: seq<seq<Rule>>, source: seq<Rule>, r: Rule) returns (i: nat)
    requires Cached(cache, source) && r in source && Priority(r) != I64_MAX
    ensures i < |Low(cache)| && r in Low(cache)[i]
  {
    i :| 0 <= i < |cache| && Priority(cache[i][0]) == Priority(r);
    CachedGroup(cache, source, i);
    UpToCut(cache, I64_MAX - 1);
    assert i < |Low(cache)|;
  }

  /** The labels of the group at i64::MAX. */
  function TopLabels(low: seq<seq<Tagged>>, source: seq<Rule>, conn: Connection): seq<Tagged> {
    (if low != [] then [] else FallbackLead(Top(source), conn)) + PlainLabels(Top(source), conn)
  }

  function Group(labels: seq<Tagged>): seq<seq<Tagged>> {
    if labels != [] then [labels] else []
  }

  lemma ShapeOf(low: seq<seq<Rule>>, top: seq<Rule>, conn: Connection)
    requires AllPlain(low)
    ensures var labels := PlainGroups(low, conn);
            MatchGroups(low + [top], conn, []) ==
            labels + Group((if labels != [] then [] else FallbackLead(top, conn)) + PlainLabels(top, conn))
    ensures PlainGroups(low + [top], conn) == PlainGroups(low, conn) + Group(PlainLabels(top, conn))
  {
    var labels := PlainGroups(low, conn);
    PlainShape(low, conn, []);
    assert [] + labels == labels;
    MatchGroupsConcat(low, [top], conn, []);
    PlainGroupsConcat(low, [top], conn);
    GroupShape(top, conn, labels != [], []);
    OneGroup(top, conn, labels);
    var lead := if labels != [] then [] else FallbackLead(top, conn);
    assert [] + lead == lead;
  }

  lemma LowIsPlain(cache: seq<seq<Rule>>, source: seq<Rule>)
    requires Cached(cache, source)
    ensures AllPlain(Low(cache))
  {
    forall i, r: Rule | 0 <= i < |Low(cache)| && r in Low(cache)[i]
      ensures r.Plain?
    {
      LowMember(cache, source, i, r);
    }
    AllPlainIntro(Low(cache));
  }

  /** The match on an updated cache, in closed form. */
  lemma MatchShape(cache: seq<seq<Rule>>, source: seq<Rule>, conn: Connection)
    requires Cached(cache, source)
    ensures var low := PlainGroups(Low(cache), conn);
            Match(cache, conn) == Unique(low + Group(TopLabels(low, source, conn)))
    ensures PlainGroups(cache, conn) == PlainGroups(Low(cache), conn) + Group(PlainLabels(Top(source), conn))
  {
    var low := Low(cache);
    LowThenTop(cache, source);
    LowIsPlain(cache, source);
    if Top(source) == [] {
      assert cache == low;
      PlainShape(low, conn, []);
      assert FallbackLead([], conn) == [] && PlainLabels([], conn) == [];
      assert TopLabels(PlainGroups(low, conn), source, conn) == [];
      assert [] + PlainGroups(low, conn) == PlainGroups(low, conn) == PlainGroups(low, conn) + [];
    } else {
      ShapeOf(low, Top(source), conn);
    }
  }

  lemma OneGroup(rules: seq<Rule>, conn: Connection, acc: seq<seq<Tagged>>)
    ensures MatchGroups([rules], conn, acc) ==
            acc + Group(GroupLabels(rules, conn, acc != [], []))
    ensures PlainGroups([rules], conn) == Group(PlainLabels(rules, conn))
  {
  }

  ghost predicate SomeEmit(rules: seq<Rule>, conn: Connection) {
    exists r :: r in rules && Emits(r, conn)
  }

  ghost predicate SomeEmitBelowMax(rules: seq<Rule>, conn: Connection) {
    exists r :: r in rules && Emits(r, conn) && Priority(r) != I64_MAX
  }

  lemma {:induction false} FirstEffectiveOfFallbacks(rules: seq<Rule>, conn: Connection)
    requires !SomeEmit(rules, conn)
    ensures FirstEffective(rules, conn) == FirstFallback(rules)
    ensures FirstFallback(Top(rules)) == FirstFallback(rules)
  {
    if rules != [] {
      assert rules[0] in rules;
      assert forall r :: r in rules[1..] ==> r in rules;
      FirstEffectiveOfFallbacks(rules[1..], conn);
    }
  }

  /** What the fallbacks are for: with a plain rule matching they say nothing; with none, the
      first fallback that has labels speaks alone. */
  ghost predicate FallbackAlone(cache: seq<seq<Rule>>, source: seq<Rule>, conn: Connection) {
    Alone(Match(cache, conn), PlainGroups(cache, conn), source, conn)
  }

  ghost predicate Alone(out: seq<seq<Tagged>>, plainOut: seq<seq<Tagged>>, source: seq<Rule>, conn: Connection) {
    if SomeEmit(source, conn) then out == Unique(plainOut)
    else out == if FirstFallback(source).Some? then [TagAll(FirstFallback(source).value)] else []
  }

  /** A fallback stands before a matching plain rule of the same priority, and nothing lower matches. */
  ghost predicate Mixed(source: seq<Rule>, conn: Connection) {
    && SomeEmit(source, conn)
    && !SomeEmitBelowMax(source, conn)
    && FirstEffective(Top(source), conn).Some?
    && FirstEffective(Top(source), conn).value.Fallback?
  }

  lemma {:induction false} FirstEffectiveHasLabels(rules: seq<Rule>, conn: Connection)
    ensures FirstEffective(rules, conn).Some? ==> FirstEffective(rules, conn).value.labels != []
  {
    if rules != [] {
      FirstEffectiveHasLabels(rules[1..], conn);
    }
  }

  lemma EmittersByPriority(cache: seq<seq<Rule>>, source: seq<Rule>, conn: Connection)
    requires Cached(cache, source)
    ensures PlainGroups(Low(cache), conn) == [] <==> !SomeEmitBelowMax(source, conn)
    ensures PlainLabels(Top(source), conn) == [] <==> !SomeEmit(Top(source), conn)
    ensures SomeEmit(source, conn) <==> SomeEmitBelowMax(source, conn) || SomeEmit(Top(source), conn)
  {
    PlainGroupsEmpty(Low(cache), conn);
    PlainLabelsEmpty(Top(source), conn);
    WithKeyMember(source, Priority, I64_MAX);
    if SomeEmitBelowMax(source, conn) {
      var r :| r in source && Emits(r, conn) && Priority(r) != I64_MAX;
      var i := MemberOfLow(cache, source, r);
    }
    if i, r :| 0 <= i < |Low(cache)| && r in Low(cache)[i] && Emits(r, conn) {
      LowMember(cache, source, i, r);
    }
  }

  /** When the labels of a leading fallback change the result. */
  lemma LeadMatters(low: seq<seq<Tagged>>, lead: seq<Tagged>, plain: seq<Tagged>)
    ensures low == [] && plain == [] ==> Unique(low + Group(lead + plain)) == Group(lead)
    ensures low == [] && plain != [] ==>
            (Unique(low + Group(lead + plain)) == Unique(low + Group(plain)) <==> lead == [])
  {
    if low == [] {
      SingletonUnique(lead + plain);
      SingletonUnique(plain);
      assert plain == [] ==> lead + plain == lead;
      assert lead == [] ==> lead + plain == plain;
      assert |lead + plain| == |lead| + |plain|;
      assert [lead + plain][0] == lead + plain && [plain][0] == plain;
      assert low + Group(lead + plain) == Group(lead + plain) && low + Group(plain) == Group(plain);
    }
  }

  lemma FallbackCases(
      out: seq<seq<Tagged>>, plainOut: seq<seq<Tagged>>, low: seq<seq<Tagged>>, source: seq<Rule>, conn: Connection)
    requires out == Unique(low + Group(TopLabels(low, source, conn)))
    requires plainOut == low + Group(PlainLabels(Top(source), conn))
    requires low == [] <==> !SomeEmitBelowMax(source, conn)
    requires PlainLabels(Top(source), conn) == [] <==> !SomeEmit(Top(source), conn)
    requires SomeEmit(source, conn) <==> SomeEmitBelowMax(source, conn) || SomeEmit(Top(source), conn)
    ensures SomeEmit(source, conn) ==> (out == Unique(plainOut) <==> !Mixed(source, conn))
    ensures !SomeEmit(source, conn) ==>
              out == if FirstFallback(source).Some? then [TagAll(FirstFallback(source).value)] else []
  {
    FirstEffectiveHasLabels(Top(source), conn);
    LeadMatters(low, FallbackLead(Top(source), conn), PlainLabels(Top(source), conn));
    var first := FirstEffective(Top(source), conn);
    assert FallbackLead(Top(source), conn) == [] <==> !(first.Some? && first.value.Fallback?) by {
      if first.Some? {
        assert |TagAll(first.value)| == |first.value.labels|;
      }
    }
    assert [] + PlainLabels(Top(source), conn) == PlainLabels(Top(source), conn);
    if !SomeEmit(source, conn) {
      NothingEmits(source, conn);
    }
  }

  lemma AloneFromCases(
      out: seq<seq<Tagged>>, plainOut: seq<seq<Tagged>>, low: seq<seq<Tagged>>, source: seq<Rule>, conn: Connection)
    requires out == Unique(low + Group(TopLabels(low, source, conn)))
    requires plainOut == low + Group(PlainLabels(Top(source), conn))
    requires low == [] <==> !SomeEmitBelowMax(source, conn)
    requires PlainLabels(Top(source), conn) == [] <==> !SomeEmit(Top(source), conn)
    requires SomeEmit(source, conn) <==> SomeEmitBelowMax(source, conn) || SomeEmit(Top(source), conn)
    ensures Alone(out, plainOut, source, conn) <==> !Mixed(source, conn)
  {
    FallbackCases(out, plainOut, low, source, conn);
  }

  /** Fallback exclusivity, and exactly when it fails. */
  lemma FallbackExclusivity(cache: seq<seq<Rule>>, source: seq<Rule>, conn: Connection)
    requires Cached(cache, source)
    ensures FallbackAlone(cache, source, conn) <==> !Mixed(source, conn)
  {
    var out, plainOut, low := Match(cache, conn), PlainGroups(cache, conn), PlainGroups(Low(cache), conn);
    assert out == Unique(low + Group(TopLabels(low, source, conn)))
        && plainOut == low + Group(PlainLabels(Top(source), conn)) by {
      MatchShape(cache, source, conn);
    }
    EmittersByPriority(cache, source, conn);
    AloneFromCases(out, plainOut, low, source, conn);
  }

  lemma NothingEmits(source: seq<Rule>, conn: Connection)
    requires !SomeEmit(source, conn)
    ensures PlainLabels(Top(source), conn) == []
    ensures FallbackLead(Top(source), conn) ==
            if FirstFallback(source).Some? then TagAll(FirstFallback(source).value) else []
    ensures FirstFallback(source).Some? ==> TagAll(FirstFallback(source).value) != []
  {
    WithKeyMember(source, Priority, I64_MAX);
    PlainLabelsEmpty(Top(source), conn);
    FirstEffectiveOfFallbacks(source, conn);
    FirstEffectiveOfFallbacks(Top(source), conn);
    FallbackIsFallback(source);
  }

  lemma {:induction false} FallbackIsFallback(rules: seq<Rule>)
    ensures FirstFallback(rules).Some? ==>
            FirstFallback(rules).value.Fallback? && FirstFallback(rules).value.labels != []
            && FirstFallback(rules).value in rules
  {
    if rules != [] {
      FallbackIsFallback(rules[1..]);
    }
  }

  lemma SingletonUnique(labels: seq<Tagged>)
    ensures Unique([labels]) == [labels] && Unique([] + [labels]) == [labels]
  {
  }

  /** Rules whose configured priority is below i64::MAX never mix. */
  lemma NotMixedBelowMax(source: seq<Rule>, conn: Connection)
    requires forall r :: r in source && r.Plain? ==> r.rank < I64_MAX
    ensures !Mixed(source, conn)
  {
  }

  lemma {:induction false} FirstFallbackConcat(a: seq<Rule>, b: seq<Rule>)
    ensures FirstFallback(a + b) == if FirstFallback(a).Some? then FirstFallback(a) else FirstFallback(b)
  {
    if a == [] {
      assert a + b == b;
    } else {
      assert (a + b)[1..] == a[1..] + b;
      FirstFallbackConcat(a[1..], b);
    }
  }

  /** An IN fallback beats every OUT fallback, in whatever order the OUTs come. */
  lemma InFallbackWins(
      cache: seq<seq<Rule>>, inRules: seq<Rule>, outs: map<OutId, OutRules>, order: seq<OutId>, conn: Connection)
    requires Orders(order, outs.Keys) && Cached(cache, Source(inRules, outs, order))
    requires FirstFallback(inRules).Some?
    requires !SomeEmit(Source(inRules, outs, order), conn)
    ensures Match(cache, conn) == [TagAll(FirstFallback(inRules).value)]
  {
    FallbackExclusivity(cache, Source(inRules, outs, order), conn);
    FirstFallbackConcat(inRules, OutSource(outs, order));
  }

  /** The same for the cache the router starts with, one group of all IN rules whatever their
      priorities: a fallback that stands before every matching rule mixes with those. */
  ghost predicate SeedMixed(inRules: seq<Rule>, conn: Connection) {
    && SomeEmit(inRules, conn)
    && FirstEffective(inRules, conn).Some?
    && FirstEffective(inRules, conn).value.Fallback?
  }

  lemma SeedShape(inRules: seq<Rule>, conn: Connection)
    ensures Match([inRules], conn) == Unique(Group(FallbackLead(inRules, conn) + PlainLabels(inRules, conn)))
    ensures PlainGroups([inRules], conn) == Group(PlainLabels(inRules, conn))
  {
    GroupShape(inRules, conn, false, []);
    OneGroup(inRules, conn, []);
    assert [] + FallbackLead(inRules, conn) == FallbackLead(inRules, conn);
    assert [] + Group(GroupLabels(inRules, conn, false, [])) == Group(GroupLabels(inRules, conn, false, []));
  }

  lemma LeadWhenFallback(rules: seq<Rule>, conn: Connection)
    ensures var first := FirstEffective(rules, conn);
            FallbackLead(rules, conn) != [] <==> first.Some? && first.value.Fallback?
  {
    FirstEffectiveHasLabels(rules, conn);
    var first := FirstEffective(rules, conn);
    if first.Some? {
      assert |TagAll(first.value)| == |first.value.labels|;
    }
  }

  /** Exclusivity before the first update, and exactly when it fails. */
  lemma SeedExclusivity(inRules: seq<Rule>, conn: Connection)
    ensures FallbackAlone([inRules], inRules, conn) <==> !SeedMixed(inRules, conn)
  {
    var lead, plain := FallbackLead(inRules, conn), PlainLabels(inRules, conn);
    SeedShape(inRules, conn);
    LeadWhenFallback(inRules, conn);
    PlainLabelsEmpty(inRules, conn);
    LeadMatters([], lead, plain);
    assert [] + Group(lead + plain) == Group(lead + plain) && [] + Group(plain) == Group(plain);
    if !SomeEmit(inRules, conn) {
      FirstEffectiveOfFallbacks(inRules, conn);
      FallbackIsFallback(inRules);
    }
  }

  /** Before the first update exclusivity fails even for an ordinary priority, which afterwards it
      never does. */
  lemma UngroupedSeedMixes(conn: Connection) returns (inRules: seq<Rule>)
    ensures forall r :: r in inRules && r.Plain? ==> r.rank < I64_MAX
    ensures !FallbackAlone([inRules], inRules, conn)
    ensures forall cache :: Cached(cache, inRules) ==> FallbackAlone(cache, inRules, conn)
  {
    var plain := Plain(Address(None, None), false, [BuiltIn(Direct)], 0, None);
    var fallback := Fallback([BuiltIn(Any)], None);
    inRules := [fallback, plain];
    assert plain in inRules && Emits(plain, conn);
    SeedExclusivity(inRules, conn);
    forall cache | Cached(cache, inRules)
      ensures FallbackAlone(cache, inRules, conn)
    {
      FallbackExclusivity(cache, inRules, conn);
      NotMixedBelowMax(inRules, conn);
    }
  }

  /** A rule configured with the priority of the fallbacks, after one of them, mixes with it. */
  lemma MaxPriorityMixes(conn: Connection) returns (inRules: seq<Rule>)
    ensures forall cache :: Cached(cache, inRules) ==> !FallbackAlone(cache, inRules, conn)
  {
    var plain := Plain(Address(None, None), false, [BuiltIn(Direct)], I64_MAX, None);
    var fallback := Fallback([BuiltIn(Any)], None);
    inRules := [fallback, plain];
    assert plain in inRules && Emits(plain, conn);
    assert inRules[1..] == [plain];
    assert Top(inRules) == [fallback] + WithKey([plain], Priority, I64_MAX);
    assert [plain] == [plain] + [];
    WithKeyMember([plain], Priority, I64_MAX);
    assert FirstEffective(Top(inRules), conn) == Some(fallback);
    forall cache | Cached(cache, inRules)
      ensures !FallbackAlone(cache, inRules, conn)
    {
      FallbackExclusivity(cache, inRules, conn);
    }
  }
}
