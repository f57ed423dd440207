/** What the kinds of rule mean, and what the groups `match` returns mean in terms of the rules in force. */
module RuleMeaning {
  import opened Prelude
  import opened Addresses
  import opened Seqs
  import opened Rules
  import opened RuleCache
  import opened Matching

  // ---- One rule ----

  /** The connection has what the condition looks at. */
  predicate CanTell(condition: Condition, conn: Connection) {
    match condition
    case GeoIp(_) => conn.regions.Some?
    case Address(_, _) => true
    case Domain(_) => conn.domain.Some?
    case DomainPattern(_) => conn.domain.Some?
  }

  predicate Matches(r: Rule, conn: Connection)
    requires r.Plain?
  {
    MatchRule(r, conn, false).Some?
  }

  /** Negation turns the answer around where there is one; a connection that lacks what the condition
      looks at matches neither way. */
  lemma NegationFlips(r: Rule, conn: Connection)
    requires r.Plain?
    ensures CanTell(r.condition, conn) ==> (Matches(r.(negate := !r.negate), conn) <==> !Matches(r, conn))
    ensures !CanTell(r.condition, conn) ==> !Matches(r.(negate := !r.negate), conn) && !Matches(r, conn)
  {
  }

  /** A matching rule answers with its labels, whatever matched before; a fallback does unless
      something did. */
  lemma AnswersWithLabels(r: Rule, conn: Connection, anyMatched: bool)
    ensures r.Plain? ==> MatchRule(r, conn, anyMatched) == if Matches(r, conn) then Some(r.labels) else None
    ensures r.Fallback? ==> MatchRule(r, conn, anyMatched) == if anyMatched then None else Some(r.labels)
  {
  }

  lemma DomainRuleTests(r: Rule, conn: Connection, domains: seq<string>)
    requires r.Plain? && !r.negate && r.condition == Domain(domains)
    ensures Matches(r, conn) <==>
              conn.domain.Some? && exists i :: 0 <= i < |domains| && DomainMatches(conn.domain.value, domains[i])
  {
  }

  /** A domain rule matches the names that end in the labels of one of its domains. */
  lemma DomainRuleMatches(r: Rule, conn: Connection, domains: seq<string>)
    requires r.Plain? && !r.negate && r.condition == Domain(domains)
    ensures Matches(r, conn) <==>
              && conn.domain.Some?
              && exists i :: 0 <= i < |domains| && IsSuffix(Split(domains[i]), Split(conn.domain.value))
  {
    DomainRuleTests(r, conn, domains);
    if conn.domain.Some? {
      forall i | 0 <= i < |domains|
        ensures DomainMatches(conn.domain.value, domains[i]) <==> IsSuffix(Split(domains[i]), Split(conn.domain.value))
      {
        DomainMatchIsLabelSuffix(conn.domain.value, domains[i]);
      }
    }
  }

  /** An address rule matches where its nets hold the address and its ports the port; a list left out
      constrains nothing. */
  lemma AddressRuleMatches(r: Rule, conn: Connection, nets: Option<seq<Ip -> bool>>, ports: Option<seq<int>>)
    requires r.Plain? && !r.negate && r.condition == Address(nets, ports)
    ensures Matches(r, conn) <==>
              && (nets.Some? ==> exists i :: 0 <= i < |nets.value| && nets.value[i](conn.address))
              && (ports.Some? ==> exists i :: 0 <= i < |ports.value| && ports.value[i] == conn.port)
  {
  }

  /** A region rule matches where the codes of the address meet its own. */
  lemma GeoIpRuleMatches(r: Rule, conn: Connection, codes: seq<string>)
    requires r.Plain? && !r.negate && r.condition == GeoIp(codes)
    ensures Matches(r, conn) <==>
              conn.regions.Some? && exists code :: code in codes && code in conn.regions.value
  {
    if conn.regions.Some? {
      if i :| 0 <= i < |codes| && codes[i] in conn.regions.value {
        assert codes[i] in codes;
      }
    }
  }

  lemma DomainPatternRuleMatches(r: Rule, conn: Connection, patterns: seq<string -> bool>)
    requires r.Plain? && !r.negate && r.condition == DomainPattern(patterns)
    ensures Matches(r, conn) <==>
              conn.domain.Some? && exists i :: 0 <= i < |patterns| && patterns[i](conn.domain.value)
  {
  }

  lemma BelowDomain()
    ensures DomainMatches("x.ab.c", "ab.c")
  {
    var name, front := "x.ab.c", "x.";
    assert name[2..] == "ab.c" && name[..2] == front && front[1..] == ".";
  }

  lemma NotAtDot()
    ensures !DomainMatches("xab.c", "ab.c")
  {
    var name, front := "xab.c", "x";
    assert name[1..] == "ab.c" && name[..1] == front && front[0..] == front && front[0] != '.';
  }

  /** A domain rule matches its domain and what lies below it, label by label. */
  lemma DomainExamples(r: Rule, conn: Connection)
    requires r.Plain? && !r.negate && r.condition == Domain(["ab.c"])
    ensures conn.domain == Some("ab.c") || conn.domain == Some("x.ab.c") ==> Matches(r, conn)
    ensures conn.domain == Some("xab.c") || conn.domain == Some("c") ==> !Matches(r, conn)
  {
    DomainRuleTests(r, conn, ["ab.c"]);
    BelowDomain();
    NotAtDot();
    assert ["ab.c"][0] == "ab.c";
    assert !DomainMatches("c", "ab.c");
  }

  // ---- The groups ----

  /** A rule in force that matches and has the label. */
  ghost predicate Gives(r: Rule, source: seq<Rule>, conn: Connection, x: Tagged) {
    r in source && r.Plain? && Matches(r, conn) && x.target in r.labels && x.tag == r.tag
  }

  ghost predicate SomeMatches(source: seq<Rule>, conn: Connection) {
    exists r, x :: Gives(r, source, conn, x)
  }

  predicate Rising(s: seq<int>) {
    forall i, j :: 0 <= i < j < |s| ==> s[i] < s[j]
  }

  /** Each group comes from the matching rules of one priority, group after group from lower ones to
      higher ones, and no matching rule is left out. */
  ghost predicate ByPriority(groups: seq<seq<Tagged>>, source: seq<Rule>, conn: Connection, ranks: seq<int>) {
    && |ranks| == |groups| && Rising(ranks)
    && (forall i, x {:trigger x in groups[i]} :: 0 <= i < |groups| ==>
          (x in groups[i] <==> exists r :: Gives(r, source, conn, x) && Priority(r) == ranks[i]))
    && (forall r, x {:trigger Gives(r, source, conn, x)} :: Gives(r, source, conn, x) ==>
          exists i :: 0 <= i < |groups| && x in groups[i])
  }

  /** The group is what the first fallback that has labels says, or there is none. */
  ghost predicate ByFallback(groups: seq<seq<Tagged>>, source: seq<Rule>) {
    if exists r :: r in source && r.Fallback? && r.labels != [] then
      exists i :: 0 <= i < |source| && FirstFallbackAt(source, i)
                  && |groups| == 1 && |groups[0]| == |source[i].labels|
                  && forall k :: 0 <= k < |groups[0]| ==> groups[0][k] == Tagged(source[i].labels[k], source[i].tag)
    else groups == []
  }

  predicate FirstFallbackAt(source: seq<Rule>, i: nat)
    requires i < |source|
  {
    && source[i].Fallback? && source[i].labels != []
    && forall j :: 0 <= j < i ==> !(source[j].Fallback? && source[j].labels != [])
  }

  lemma TagMembers(r: Rule, x: Tagged)
    ensures x in TagAll(r) <==> x.target in r.labels && x.tag == r.tag
  {
    if x.target in r.labels && x.tag == r.tag {
      var i :| 0 <= i < |r.labels| && r.labels[i] == x.target;
      assert TagAll(r)[i] == x;
    }
  }

  lemma {:induction false} PlainLabelsAre(rules: seq<Rule>, conn: Connection, x: Tagged)
    ensures x in PlainLabels(rules, conn) <==> exists r :: Gives(r, rules, conn, x)
  {
    if rules != [] {
      var rest := rules[1..];
      PlainLabelsAre(rest, conn, x);
      TagMembers(rules[0], x);
      var head := if Emits(rules[0], conn) then TagAll(rules[0]) else [];
      assert PlainLabels(rules, conn) == head + PlainLabels(rest, conn);
      assert x in head <==> Gives(rules[0], rules, conn, x);
      if r :| Gives(r, rest, conn, x) {
        assert Gives(r, rules, conn, x);
      }
      if r :| Gives(r, rules, conn, x) {
        assert r == rules[0] || r in rest;
        assert r in rest ==> Gives(r, rest, conn, x);
      }
    }
  }

  lemma UniqueSnoc<T(!new)>(front: seq<T>, last: T)
    ensures Unique(front + [last]) == if last in front then Unique(front) else Unique(front) + [last]
  {
    assert (front + [last])[..|front|] == front;
  }

  lemma PlacesSnoc<T(!new)>(front: seq<T>, last: T, at: seq<int>, u: seq<T>)
    requires |at| == |u| && Rising(at) && forall i :: 0 <= i < |at| ==> 0 <= at[i] < |front| && u[i] == front[at[i]]
    ensures var more := at + [|front|];
            Rising(more) && forall i :: 0 <= i < |more| ==>
                              0 <= more[i] < |front| + 1 && (u + [last])[i] == (front + [last])[more[i]]
    ensures forall i :: 0 <= i < |at| ==> u[i] == (front + [last])[at[i]]
  {
  }

  /** Where the elements of the deduplicated list stood. */
  lemma {:induction false} UniqueAt<T(!new)>(s: seq<T>) returns (at: seq<int>)
    ensures |at| == |Unique(s)| && Rising(at)
    ensures forall i :: 0 <= i < |at| ==> 0 <= at[i] < |s| && Unique(s)[i] == s[at[i]]
  {
    at := [];
    if s != [] {
      var front := s[..|s| - 1];
      at := UniqueAt(front);
      UniqueSnoc(front, s[|s| - 1]);
      assert s == front + [s[|s| - 1]];
      PlacesSnoc(front, s[|s| - 1], at, Unique(front));
      if s[|s| - 1] !in front {
        at := at + [|s| - 1];
      }
    }
  }

  function Shifted(at: seq<int>): (r: seq<int>)
    ensures |r| == |at| && forall i :: 0 <= i < |r| ==> r[i] == at[i] + 1
  {
    seq(|at|, i requires 0 <= i < |at| => at[i] + 1)
  }

  /** `out[i]` holds the labels of the group at `at[i]`. */
  ghost predicate Locates(at: seq<int>, out: seq<seq<Tagged>>, groups: seq<seq<Rule>>, conn: Connection) {
    && |at| == |out| && Rising(at)
    && forall i :: 0 <= i < |at| ==> 0 <= at[i] < |groups| && out[i] == PlainLabels(groups[at[i]], conn)
  }

  lemma ShiftedLocates(at: seq<int>, out: seq<seq<Tagged>>, groups: seq<seq<Rule>>, g: seq<Rule>, conn: Connection)
    requires Locates(at, out, groups, conn)
    ensures Locates(Shifted(at), out, [g] + groups, conn)
  {
    var more := [g] + groups;
    forall i | 0 <= i < |at|
      ensures more[at[i] + 1] == groups[at[i]]
    {
    }
  }

  lemma LedLocates(at: seq<int>, out: seq<seq<Tagged>>, groups: seq<seq<Rule>>, labels: seq<Tagged>, conn: Connection)
    requires Locates(at, out, groups, conn) && groups != [] && labels == PlainLabels(groups[0], conn)
    requires forall i :: 0 <= i < |at| ==> at[i] > 0
    ensures Locates([0] + at, [labels] + out, groups, conn)
  {
    var places, all := [0] + at, [labels] + out;
    forall i | 0 <= i < |places|
      ensures 0 <= places[i] < |groups| && all[i] == PlainLabels(groups[places[i]], conn)
    {
      assert i > 0 ==> places[i] == at[i - 1] && all[i] == out[i - 1];
    }
    assert forall i :: 0 < i < |places| ==> places[i] == at[i - 1];
  }

  /** Which rule groups the label groups come from. */
  lemma {:induction false} PlainGroupsAt(groups: seq<seq<Rule>>, conn: Connection) returns (at: seq<int>)
    ensures Locates(at, PlainGroups(groups, conn), groups, conn)
  {
    at := [];
    if groups != [] {
      var rest := PlainGroupsAt(groups[1..], conn);
      ShiftedLocates(rest, PlainGroups(groups[1..], conn), groups[1..], groups[0], conn);
      assert groups == [groups[0]] + groups[1..];
      at := Shifted(rest);
      if PlainLabels(groups[0], conn) != [] {
        LedLocates(at, PlainGroups(groups[1..], conn), groups, PlainLabels(groups[0], conn), conn);
        at := [0] + at;
      }
    }
  }

  lemma {:induction false} PlainGroupsHave(groups: seq<seq<Rule>>, conn: Connection, i: nat)
    requires i < |groups| && PlainLabels(groups[i], conn) != []
    ensures PlainLabels(groups[i], conn) in PlainGroups(groups, conn)
  {
    if i > 0 {
      PlainGroupsHave(groups[1..], conn, i - 1);
    }
  }

  lemma GivesInGroup(cache: seq<seq<Rule>>, source: seq<Rule>, conn: Connection, i: nat, x: Tagged)
    requires Cached(cache, source) && i < |cache|
    ensures x in PlainLabels(cache[i], conn) <==>
              exists r :: Gives(r, source, conn, x) && Priority(r) == Priority(cache[i][0])
  {
    PlainLabelsAre(cache[i], conn, x);
    WithKeyMember(source, Priority, Priority(cache[i][0]));
    if r :| Gives(r, cache[i], conn, x) {
      assert Gives(r, source, conn, x);
    }
    if r :| Gives(r, source, conn, x) && Priority(r) == Priority(cache[i][0]) {
      assert Gives(r, cache[i], conn, x);
    }
  }

  lemma GivesSomewhere(cache: seq<seq<Rule>>, source: seq<Rule>, conn: Connection, r: Rule, x: Tagged)
    requires Cached(cache, source) && Gives(r, source, conn, x)
    ensures exists g :: g in PlainGroups(cache, conn) && x in g
  {
    var i :| 0 <= i < |cache| && Priority(cache[i][0]) == Priority(r);
    GivesInGroup(cache, source, conn, i, x);
    PlainGroupsHave(cache, conn, i);
  }

  /** The plain groups of an updated cache, deduplicated, are those of the matching rules by priority. */
  lemma PlainIsByPriority(cache: seq<seq<Rule>>, source: seq<Rule>, conn: Connection) returns (ranks: seq<int>)
    requires Cached(cache, source)
    ensures ByPriority(Unique(PlainGroups(cache, conn)), source, conn, ranks)
  {
    var plain := PlainGroups(cache, conn);
    var groups := Unique(plain);
    var at := PlainGroupsAt(cache, conn);
    var first := UniqueAt(plain);
    ranks := seq(|groups|, i requires 0 <= i < |groups| => Priority(cache[at[first[i]]][0]));
    forall i, x | 0 <= i < |groups|
      ensures x in groups[i] <==> exists r :: Gives(r, source, conn, x) && Priority(r) == ranks[i]
    {
      assert groups[i] == PlainLabels(cache[at[first[i]]], conn);
      GivesInGroup(cache, source, conn, at[first[i]], x);
    }
    forall r, x | Gives(r, source, conn, x)
      ensures exists i :: 0 <= i < |groups| && x in groups[i]
    {
      GivesSomewhere(cache, source, conn, r, x);
      var g :| g in plain && x in g;
      assert g in groups;
    }
  }

  lemma MatchingIsEmitting(source: seq<Rule>, conn: Connection)
    ensures SomeMatches(source, conn) <==> SomeEmit(source, conn)
  {
    if r, x :| Gives(r, source, conn, x) {
      assert r in source && Emits(r, conn);
    }
    if r :| r in source && Emits(r, conn) {
      assert Gives(r, source, conn, Tagged(r.labels[0], r.tag));
    }
  }

  lemma {:induction false} FirstFallbackPlace(source: seq<Rule>) returns (i: nat)
    ensures FirstFallback(source).None? ==> forall r :: r in source ==> !(r.Fallback? && r.labels != [])
    ensures FirstFallback(source).Some? ==>
              i < |source| && source[i] == FirstFallback(source).value && FirstFallbackAt(source, i)
  {
    i := 0;
    if source != [] && !(source[0].Fallback? && source[0].labels != []) {
      i := FirstFallbackPlace(source[1..]);
      if FirstFallback(source).Some? {
        assert forall j :: 0 < j <= i ==> source[j] == source[1..][j - 1];
        i := i + 1;
      }
      assert forall r :: r in source ==> r == source[0] || r in source[1..];
    }
  }

  lemma FallbackIsByFallback(source: seq<Rule>)
    ensures ByFallback(if FirstFallback(source).Some? then [TagAll(FirstFallback(source).value)] else [], source)
  {
    var i := FirstFallbackPlace(source);
    if FirstFallback(source).Some? {
      assert source[i] in source;
    }
  }

  /** What `match` answers on an updated cache: the labels of the matching rules by priority, if any
      matches and no fallback mixes in; if none matches, those of the first fallback. */
  lemma MatchMeaning(cache: seq<seq<Rule>>, source: seq<Rule>, conn: Connection)
    requires Cached(cache, source)
    ensures SomeMatches(source, conn) && !Mixed(source, conn) ==>
              exists ranks :: ByPriority(Match(cache, conn), source, conn, ranks)
    ensures !SomeMatches(source, conn) ==> ByFallback(Match(cache, conn), source)
  {
    MatchingIsEmitting(source, conn);
    FallbackExclusivity(cache, source, conn);
    if SomeMatches(source, conn) {
      var ranks := PlainIsByPriority(cache, source, conn);
    } else {
      FallbackIsByFallback(source);
    }
  }

  /** One group with the labels of all matching rules. */
  ghost predicate AllInOne(groups: seq<seq<Tagged>>, source: seq<Rule>, conn: Connection) {
    |groups| == 1 && forall x :: x in groups[0] <==> exists r :: Gives(r, source, conn, x)
  }

  lemma SeedAllInOne(inRules: seq<Rule>, conn: Connection)
    requires SomeEmit(inRules, conn)
    ensures AllInOne(Unique(PlainGroups([inRules], conn)), inRules, conn)
  {
    SeedShape(inRules, conn);
    PlainLabelsEmpty(inRules, conn);
    SingletonUnique(PlainLabels(inRules, conn));
    forall x
      ensures x in PlainLabels(inRules, conn) <==> exists r :: Gives(r, inRules, conn, x)
    {
      PlainLabelsAre(inRules, conn, x);
    }
  }

  /** Before the first update the matching rules speak in one group whatever their priorities. */
  lemma SeedMeaning(inRules: seq<Rule>, conn: Connection)
    ensures SomeMatches(inRules, conn) && !SeedMixed(inRules, conn) ==>
              AllInOne(Match([inRules], conn), inRules, conn)
    ensures !SomeMatches(inRules, conn) ==> ByFallback(Match([inRules], conn), inRules)
  {
    MatchingIsEmitting(inRules, conn);
    SeedExclusivity(inRules, conn);
    if SomeMatches(inRules, conn) {
      SeedAllInOne(inRules, conn);
    } else {
      FallbackIsByFallback(inRules);
    }
  }
}
