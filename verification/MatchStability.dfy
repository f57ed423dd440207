/** Hash order and what `match` returns, after deduplication. */
module MatchStability {
  import opened Prelude
  import opened Ids
  import opened Seqs
  import opened Rules
  import opened RuleCache
  import opened Matching
  import opened PrefixStability

  /** What `match` produces from the leading groups, `Match(Lead(cache, p), conn)`, does not depend on hash
      order. */
  ghost predicate MatchFixed(
      inRules: seq<Rule>, outs: map<OutId, OutRules>, outs': map<OutId, OutRules>, p: int, conn: Connection)
  {
    forall order, order', cache, cache' ::
      CacheOf(cache, inRules, outs, order) && CacheOf(cache', inRules, outs', order')
      ==> Unique(LeadLabels(cache, p, conn)) == Unique(LeadLabels(cache', p, conn))
  }

  /** The IN rules up to `p` that match name no OUT by its id, save perhaps `out`. */
  ghost predicate InNamesNone(
      inRules: seq<Rule>, outs: map<OutId, OutRules>, out: OutId, p: int, conn: Connection)
  {
    forall r, o :: r in inRules && Emits(r, conn) && Priority(r) <= p && o in outs && o != out ==>
      Custom(o) !in r.labels
  }

  lemma {:induction false} LabelOrigin(rules: seq<Rule>, conn: Connection, l: Label)
    ensures (exists t :: t in PlainLabels(rules, conn) && t.target == l) <==>
              exists r :: r in rules && Emits(r, conn) && l in r.labels
  {
    if rules != [] {
      LabelOrigin(rules[1..], conn, l);
      var head := if Emits(rules[0], conn) then TagAll(rules[0]) else [];
      assert PlainLabels(rules, conn) == head + PlainLabels(rules[1..], conn);
      TagTargets(rules[0], l);
      assert forall r :: r in rules <==> r == rules[0] || r in rules[1..];
    }
  }

  lemma TagTargets(r: Rule, l: Label)
    ensures (exists t :: t in TagAll(r) && t.target == l) <==> l in r.labels
  {
    if l in r.labels {
      var i :| 0 <= i < |r.labels| && r.labels[i] == l;
      assert TagAll(r)[i] in TagAll(r);
    }
  }

  /** A label naming another OUT comes from a rule of that OUT. */
  lemma NamedByItsOut(
      inRules: seq<Rule>, outs: map<OutId, OutRules>, order: seq<OutId>, out: OutId, p: int, q: int, conn: Connection,
      a: OutId)
    requires Orders(order, outs.Keys) && NamedRules(outs) && InNamesNone(inRules, outs, out, p, conn)
    requires q <= p && a in outs && a != out
    ensures var labels := PlainLabels(WithKey(Source(inRules, outs, order), Priority, q), conn);
            (exists t :: t in labels && t.target == Custom(a)) <==> Contributes(outs, a, q, EmitsFor(conn))
  {
    var source := Source(inRules, outs, order);
    var mine := WithKey(source, Priority, q);
    LabelOrigin(mine, conn, Custom(a));
    WithKeyMember(source, Priority, q);
    InForce(inRules, outs, order);
    if r :| r in mine && Emits(r, conn) && Custom(a) in r.labels {
      assert r !in inRules;
      var o :| o in outs && r in outs[o].rules;
      assert r.labels == [Custom(o)];
    }
    if r :| r in outs[a].rules && Priority(r) == q && Emits(r, conn) {
      assert r in source && r in mine;
    }
  }

  /** At priority `q` two OUTs other than `out` have rules that match the connection. */
  ghost predicate Conflict(
      outs: map<OutId, OutRules>, out: OutId, q: int, conn: Connection, a: OutId, b: OutId)
  {
    && a in outs && b in outs && a != b && a != out && b != out
    && Contributes(outs, a, q, EmitsFor(conn)) && Contributes(outs, b, q, EmitsFor(conn))
  }

  lemma SomeConflict(outs: map<OutId, OutRules>, out: OutId, p: int, conn: Connection)
      returns (q: int, a: OutId, b: OutId)
    requires !OneOutEach(outs, out, p, EmitsFor(conn))
    ensures -TWO_63 <= q <= p && Conflict(outs, out, q, conn, a, b)
  {
    var r: Rule, s: Rule;
    a, b, r, s :|
      && a in outs && b in outs && a != b && a != out && b != out
      && r in outs[a].rules && s in outs[b].rules && Emits(r, conn) && Emits(s, conn)
      && Priority(r) <= p && Priority(r) == Priority(s);
    q := Priority(r);
  }

  lemma NoConflict(outs: map<OutId, OutRules>, out: OutId, p: int, conn: Connection, k: int, a: OutId, b: OutId)
    requires OneOutEach(outs, out, p, EmitsFor(conn)) && k <= p
    ensures !Conflict(outs, out, k, conn, a, b)
  {
  }

  ghost predicate ConflictBelow(outs: map<OutId, OutRules>, out: OutId, q: int, conn: Connection) {
    exists k, a, b :: k < q && Conflict(outs, out, k, conn, a, b)
  }

  lemma NoneBelow(outs: map<OutId, OutRules>, out: OutId, q: int, conn: Connection)
    requires !ConflictBelow(outs, out, q, conn)
    ensures OneOutEach(outs, out, q - 1, EmitsFor(conn))
  {
    if !OneOutEach(outs, out, q - 1, EmitsFor(conn)) {
      var k, a, b := SomeConflict(outs, out, q - 1, conn);
      assert false;
    }
  }

  lemma ConflictInRange(outs: map<OutId, OutRules>, out: OutId, q: int, conn: Connection, a: OutId, b: OutId)
    requires Conflict(outs, out, q, conn, a, b)
    ensures -TWO_63 <= q
  {
  }

  /** The lowest such priority. */
  lemma {:induction false} LowestConflict(
      outs: map<OutId, OutRules>, out: OutId, k: int, conn: Connection, c: OutId, d: OutId)
      returns (q: int, a: OutId, b: OutId)
    requires Conflict(outs, out, k, conn, c, d)
    ensures q <= k && Conflict(outs, out, q, conn, a, b) && !ConflictBelow(outs, out, q, conn)
    decreases k + TWO_63
  {
    ConflictInRange(outs, out, k, conn, c, d);
    if ConflictBelow(outs, out, k, conn) {
      var k', c', d' :| k' < k && Conflict(outs, out, k', conn, c', d');
      q, a, b := LowestConflict(outs, out, k', conn, c', d');
    } else {
      q, a, b := k, c, d;
    }
  }

  lemma FirstConflict(outs: map<OutId, OutRules>, out: OutId, p: int, conn: Connection)
      returns (q: int, a: OutId, b: OutId)
    requires !OneOutEach(outs, out, p, EmitsFor(conn))
    ensures q <= p && OneOutEach(outs, out, q - 1, EmitsFor(conn)) && Conflict(outs, out, q, conn, a, b)
  {
    var k, c, d := SomeConflict(outs, out, p, conn);
    q, a, b := LowestConflict(outs, out, k, conn, c, d);
    NoneBelow(outs, out, q, conn);
  }

  // ---- The groups below and at a priority ----

  ghost predicate Ascending(cache: seq<seq<Rule>>) {
    && NonEmptyGroups(cache)
    && forall i, j :: 0 <= i < j < |cache| ==> Priority(cache[i][0]) < Priority(cache[j][0])
  }

  lemma {:induction false} UpToIs(cache: seq<seq<Rule>>, p: int, n: nat)
    requires NonEmptyGroups(cache) && n <= |cache|
    requires forall i :: 0 <= i < |cache| ==> (Priority(cache[i][0]) <= p <==> i < n)
    ensures UpTo(cache, p) == cache[..n]
  {
    if n > 0 {
      UpToIs(cache[1..], p, n - 1);
      assert cache[..n] == [cache[0]] + cache[1..][..n - 1];
    }
  }

  lemma AroundPlace(cache: seq<seq<Rule>>, i: nat)
    requires Ascending(cache) && i < |cache|
    ensures UpTo(cache, Priority(cache[i][0])) == cache[..i + 1]
    ensures UpTo(cache, Priority(cache[i][0]) - 1) == cache[..i]
  {
    var q := Priority(cache[i][0]);
    UpToIs(cache, q, i + 1);
    UpToIs(cache, q - 1, i);
  }

  lemma PlaceOf(cache: seq<seq<Rule>>, source: seq<Rule>, q: int) returns (i: nat)
    requires Cached(cache, source) && WithKey(source, Priority, q) != []
    ensures i < |cache| && cache[i] == WithKey(source, Priority, q) && Priority(cache[i][0]) == q
  {
    NonEmptyKey(source, q);
    var r :| r in source && Priority(r) == q;
    i :| 0 <= i < |cache| && Priority(cache[i][0]) == Priority(r);
  }

  lemma CachedAscending(cache: seq<seq<Rule>>, source: seq<Rule>)
    requires Cached(cache, source)
    ensures Ascending(cache)
  {
  }

  /** The group of a priority comes right after the groups below it. */
  lemma UpToNext(cache: seq<seq<Rule>>, source: seq<Rule>, q: int)
    requires Cached(cache, source) && WithKey(source, Priority, q) != []
    ensures UpTo(cache, q) == UpTo(cache, q - 1) + [WithKey(source, Priority, q)]
  {
    var i := PlaceOf(cache, source, q);
    CachedAscending(cache, source);
    AroundPlace(cache, i);
    PrefixGrows(cache, i);
  }

  lemma PrefixGrows<T>(s: seq<T>, i: nat)
    requires i < |s|
    ensures s[..i + 1] == s[..i] + [s[i]]
  {
  }

  lemma {:induction false} UpToGrows(cache: seq<seq<Rule>>, q: int, p: int)
    requires NonEmptyGroups(cache) && q <= p
    ensures UpTo(cache, q) <= UpTo(cache, p)
  {
    if cache != [] && Priority(cache[0][0]) <= q {
      UpToGrows(cache[1..], q, p);
    }
  }

  lemma PlainGroupsGrow(lead: seq<seq<Rule>>, groups: seq<seq<Rule>>, conn: Connection)
    requires lead <= groups
    ensures Unique(PlainGroups(lead, conn)) <= Unique(PlainGroups(groups, conn))
  {
    var rest := groups[|lead|..];
    assert groups == lead + rest;
    PlainGroupsConcat(lead, rest, conn);
    UniquePrefix(PlainGroups(lead, conn), PlainGroups(rest, conn));
  }

  /** What the groups up to `q` match stands at the start of what those up to `p` do. */
  lemma MatchGrows(cache: seq<seq<Rule>>, source: seq<Rule>, q: int, p: int, conn: Connection)
    requires Cached(cache, source) && q <= p < I64_MAX
    ensures Unique(LeadLabels(cache, q, conn)) <= Unique(LeadLabels(cache, p, conn))
  {
    LabelsOfLead(cache, source, q, conn);
    LabelsOfLead(cache, source, p, conn);
    UpToGrows(cache, q, p);
    PlainGroupsGrow(UpTo(cache, q), UpTo(cache, p), conn);
  }

  lemma {:induction false} PlainGroupsMembers(groups: seq<seq<Rule>>, conn: Connection, x: seq<Tagged>)
    ensures x in PlainGroups(groups, conn) ==> exists i :: 0 <= i < |groups| && x == PlainLabels(groups[i], conn)
  {
    if groups != [] {
      PlainGroupsMembers(groups[1..], conn, x);
      assert PlainGroups(groups, conn) == Group(PlainLabels(groups[0], conn)) + PlainGroups(groups[1..], conn);
      if i :| 0 <= i < |groups[1..]| && x == PlainLabels(groups[1..][i], conn) {
        assert x == PlainLabels(groups[i + 1], conn);
      }
    }
  }

  // ---- The first priority where two other OUTs match ----

  /** Labels of two other OUTs together: below that priority no group has them. */
  lemma DiffersBelow(
      inRules: seq<Rule>, outs: map<OutId, OutRules>, order: seq<OutId>, out: OutId, q: int, k: int, conn: Connection,
      a: OutId, b: OutId)
    requires Orders(order, outs.Keys) && NamedRules(outs) && InNamesNone(inRules, outs, out, q, conn) && k < q
    requires Conflict(outs, out, q, conn, a, b) && OneOutEach(outs, out, q - 1, EmitsFor(conn))
    ensures var source := Source(inRules, outs, order);
            PlainLabels(WithKey(source, Priority, k), conn) != PlainLabels(WithKey(source, Priority, q), conn)
  {
    NamedByItsOut(inRules, outs, order, out, q, q, conn, a);
    NamedByItsOut(inRules, outs, order, out, q, q, conn, b);
    NamedByItsOut(inRules, outs, order, out, q, k, conn, a);
    NamedByItsOut(inRules, outs, order, out, q, k, conn, b);
    NoConflict(outs, out, q - 1, conn, k, a, b);
  }

  lemma NewAtConflict(
      inRules: seq<Rule>, outs: map<OutId, OutRules>, order: seq<OutId>, cache: seq<seq<Rule>>, out: OutId,
      q: int, conn: Connection, a: OutId, b: OutId)
    requires CacheOf(cache, inRules, outs, order) && NamedRules(outs) && InNamesNone(inRules, outs, out, q, conn)
    requires Conflict(outs, out, q, conn, a, b) && OneOutEach(outs, out, q - 1, EmitsFor(conn))
    ensures var source := Source(inRules, outs, order);
            PlainLabels(WithKey(source, Priority, q), conn) !in PlainGroups(UpTo(cache, q - 1), conn)
  {
    var source := Source(inRules, outs, order);
    var lead := UpTo(cache, q - 1);
    PlainGroupsMembers(lead, conn, PlainLabels(WithKey(source, Priority, q), conn));
    forall i | 0 <= i < |lead|
      ensures PlainLabels(lead[i], conn) != PlainLabels(WithKey(source, Priority, q), conn)
    {
      assert lead[i] == cache[i];
      DiffersBelow(inRules, outs, order, out, q, Priority(lead[i][0]), conn, a, b);
    }
  }

  lemma LabelsAtConflict(
      inRules: seq<Rule>, outs: map<OutId, OutRules>, order: seq<OutId>, out: OutId, q: int, conn: Connection,
      a: OutId, b: OutId)
    requires Orders(order, outs.Keys) && NamedRules(outs) && InNamesNone(inRules, outs, out, q, conn)
    requires Conflict(outs, out, q, conn, a, b)
    ensures PlainLabels(WithKey(Source(inRules, outs, order), Priority, q), conn) != []
  {
    NamedByItsOut(inRules, outs, order, out, q, q, conn, a);
  }

  lemma LabelsAppended(cache: seq<seq<Rule>>, source: seq<Rule>, q: int, conn: Connection)
    requires Cached(cache, source) && q < I64_MAX && PlainLabels(WithKey(source, Priority, q), conn) != []
    ensures LeadLabels(cache, q - 1, conn) == PlainGroups(UpTo(cache, q - 1), conn)
    ensures var labels := PlainLabels(WithKey(source, Priority, q), conn);
            LeadLabels(cache, q, conn) == LeadLabels(cache, q - 1, conn) + [labels]
  {
    var mine := WithKey(source, Priority, q);
    LabelsOfLead(cache, source, q, conn);
    LabelsOfLead(cache, source, q - 1, conn);
    UpToNext(cache, source, q);
    PlainGroupsConcat(UpTo(cache, q - 1), [mine], conn);
    OneGroup(mine, conn, []);
  }

  lemma UniqueAppend(groups: seq<seq<Tagged>>, x: seq<Tagged>)
    requires x !in groups
    ensures Unique(groups + [x]) == Unique(groups) + [x]
  {
    assert (groups + [x])[..|groups|] == groups;
  }

  /** Up to that priority, deduplication leaves the group of that priority last. */
  lemma MatchAtConflict(
      inRules: seq<Rule>, outs: map<OutId, OutRules>, order: seq<OutId>, cache: seq<seq<Rule>>, out: OutId,
      q: int, conn: Connection, a: OutId, b: OutId)
    requires CacheOf(cache, inRules, outs, order) && NamedRules(outs) && InNamesNone(inRules, outs, out, q, conn)
    requires Conflict(outs, out, q, conn, a, b) && OneOutEach(outs, out, q - 1, EmitsFor(conn)) && q < I64_MAX
    ensures var mine := WithKey(Source(inRules, outs, order), Priority, q);
            Unique(LeadLabels(cache, q, conn)) == Unique(LeadLabels(cache, q - 1, conn)) + [PlainLabels(mine, conn)]
  {
    var source := Source(inRules, outs, order);
    LabelsAtConflict(inRules, outs, order, out, q, conn, a, b);
    LabelsAppended(cache, source, q, conn);
    NewAtConflict(inRules, outs, order, cache, out, q, conn, a, b);
    UniqueAppend(LeadLabels(cache, q - 1, conn), PlainLabels(WithKey(source, Priority, q), conn));
  }

  lemma OtherSide(
      inRules: seq<Rule>, outs: map<OutId, OutRules>, outs': map<OutId, OutRules>, out: OutId, p: int, q: int,
      conn: Connection)
    requires OnlyAbove(outs, outs', out, p) && q <= p
    ensures OnlyAbove(outs, outs', out, q)
    ensures OneOutEach(outs, out, q, EmitsFor(conn)) ==> OneOutEach(outs', out, q, EmitsFor(conn))
    ensures InNamesNone(inRules, outs, out, p, conn) ==> InNamesNone(inRules, outs', out, q, conn)
    ensures InNamesNone(inRules, outs, out, p, conn) ==> InNamesNone(inRules, outs, out, q, conn)
  {
  }

  lemma ConflictOnOtherSide(
      outs: map<OutId, OutRules>, outs': map<OutId, OutRules>, out: OutId, p: int, q: int, conn: Connection,
      a: OutId, b: OutId)
    requires OnlyAbove(outs, outs', out, p) && Conflict(outs, out, q, conn, a, b)
    ensures Conflict(outs', out, q, conn, a, b)
  {
  }

  /** What `match` produces starts with the groups below that priority and then has its group. */
  lemma StartAtConflict(
      inRules: seq<Rule>, outs: map<OutId, OutRules>, order: seq<OutId>, cache: seq<seq<Rule>>, out: OutId,
      q: int, p: int, conn: Connection, a: OutId, b: OutId)
    requires CacheOf(cache, inRules, outs, order) && NamedRules(outs) && InNamesNone(inRules, outs, out, q, conn)
    requires Conflict(outs, out, q, conn, a, b) && OneOutEach(outs, out, q - 1, EmitsFor(conn)) && q <= p < I64_MAX
    ensures var mine := WithKey(Source(inRules, outs, order), Priority, q);
            Unique(LeadLabels(cache, q - 1, conn)) + [PlainLabels(mine, conn)] <= Unique(LeadLabels(cache, p, conn))
  {
    MatchAtConflict(inRules, outs, order, cache, out, q, conn, a, b);
    MatchGrows(cache, Source(inRules, outs, order), q, p, conn);
  }

  lemma LastsDiffer<T>(a: seq<T>, x: T, y: T, whole: seq<T>, whole': seq<T>)
    requires x != y && a + [x] <= whole && a + [y] <= whole'
    ensures whole != whole'
  {
    assert (a + [x])[|a|] == whole[|a|] && (a + [y])[|a|] == whole'[|a|];
  }

  /** The other side of a change above `p` has the same first such priority. */
  lemma FirstOnOtherSide(
      inRules: seq<Rule>, outs: map<OutId, OutRules>, outs': map<OutId, OutRules>, out: OutId, p: int, q: int,
      conn: Connection, a: OutId, b: OutId)
    requires OnlyAbove(outs, outs', out, p) && q <= p && InNamesNone(inRules, outs, out, p, conn)
    requires Conflict(outs, out, q, conn, a, b) && OneOutEach(outs, out, q - 1, EmitsFor(conn))
    ensures InNamesNone(inRules, outs, out, q, conn) && InNamesNone(inRules, outs', out, q, conn)
    ensures OnlyAbove(outs, outs', out, q - 1)
    ensures Conflict(outs', out, q, conn, a, b) && OneOutEach(outs', out, q - 1, EmitsFor(conn))
  {
    OtherSide(inRules, outs, outs', out, p, q, conn);
    OtherSide(inRules, outs, outs', out, p, q - 1, conn);
    ConflictOnOtherSide(outs, outs', out, p, q, conn, a, b);
  }

  /** Two hash orders between which what `match` produces up to the first such priority ends differently. */
  lemma MatchMovesBetween(
      inRules: seq<Rule>, outs: map<OutId, OutRules>, order: seq<OutId>, outs': map<OutId, OutRules>,
      order': seq<OutId>, out: OutId, p: int, q: int, conn: Connection, a: OutId, b: OutId,
      cache: seq<seq<Rule>>, cache': seq<seq<Rule>>)
    requires CacheOf(cache, inRules, outs, order) && CacheOf(cache', inRules, outs', order')
    requires OnlyAbove(outs, outs', out, p) && NamedRules(outs) && NamedRules(outs') && q <= p < I64_MAX
    requires InNamesNone(inRules, outs, out, p, conn)
    requires Conflict(outs, out, q, conn, a, b) && OneOutEach(outs, out, q - 1, EmitsFor(conn))
    requires PlainLabels(WithKey(Source(inRules, outs, order), Priority, q), conn)
          != PlainLabels(WithKey(Source(inRules, outs', order'), Priority, q), conn)
    ensures Unique(LeadLabels(cache, p, conn)) != Unique(LeadLabels(cache', p, conn))
  {
    FirstOnOtherSide(inRules, outs, outs', out, p, q, conn, a, b);
    OneOutFixesLabels(inRules, outs, order, outs', order', out, q - 1, cache, cache', conn);
    StartAtConflict(inRules, outs, order, cache, out, q, p, conn, a, b);
    StartAtConflict(inRules, outs', order', cache', out, q, p, conn, a, b);
    LastsDiffer(
      Unique(LeadLabels(cache, q - 1, conn)),
      PlainLabels(WithKey(Source(inRules, outs, order), Priority, q), conn),
      PlainLabels(WithKey(Source(inRules, outs', order'), Priority, q), conn),
      Unique(LeadLabels(cache, p, conn)), Unique(LeadLabels(cache', p, conn)));
  }

  lemma MatchMoves(
      inRules: seq<Rule>, outs: map<OutId, OutRules>, outs': map<OutId, OutRules>, out: OutId, p: int, conn: Connection)
    requires OnlyAbove(outs, outs', out, p) && NamedRules(outs) && NamedRules(outs') && p < I64_MAX
    requires InNamesNone(inRules, outs, out, p, conn) && !OneOutEach(outs, out, p, EmitsFor(conn))
    ensures !MatchFixed(inRules, outs, outs', p, conn)
  {
    var q, a, b := FirstConflict(outs, out, p, conn);
    var order, order', cache, cache', k := OrdersDiffer(inRules, outs, outs', out, p, EmitsFor(conn), a, b, q);
    var source, source' := Source(inRules, outs, order), Source(inRules, outs', order');
    EmittersDiffer(WithKey(source, Priority, q), WithKey(source', Priority, q), k, conn);
    MatchMovesBetween(inRules, outs, order, outs', order', out, p, q, conn, a, b, cache, cache');
  }

  /** Exactly when what `match` produces from the leading groups does not depend on hash order, where the
      IN rules name no other OUT by its id: when no priority up to `p` holds rules of two other OUTs that
      match the connection. */
  lemma MatchFixedExactly(
      inRules: seq<Rule>, outs: map<OutId, OutRules>, outs': map<OutId, OutRules>, out: OutId, p: int, conn: Connection)
    requires OnlyAbove(outs, outs', out, p) && NamedRules(outs) && NamedRules(outs') && p < I64_MAX
    ensures OneOutEach(outs, out, p, EmitsFor(conn)) ==> MatchFixed(inRules, outs, outs', p, conn)
    ensures InNamesNone(inRules, outs, out, p, conn) ==>
              (MatchFixed(inRules, outs, outs', p, conn) <==> OneOutEach(outs, out, p, EmitsFor(conn)))
  {
    if OneOutEach(outs, out, p, EmitsFor(conn)) {
      forall order, order', cache, cache' |
          CacheOf(cache, inRules, outs, order) && CacheOf(cache', inRules, outs', order')
        ensures Unique(LeadLabels(cache, p, conn)) == Unique(LeadLabels(cache', p, conn))
      {
        OneOutFixesLabels(inRules, outs, order, outs', order', out, p, cache, cache', conn);
      }
    } else if InNamesNone(inRules, outs, out, p, conn) {
      MatchMoves(inRules, outs, outs', out, p, conn);
    }
  }

  // ---- IN rules that list the labels of two OUTs in both orders ----

  function BothOrders(): seq<Rule> {
    [Plain(Address(None, None), false, [Custom("a"), Custom("b")], 1, None),
     Plain(Address(None, None), false, [Custom("b"), Custom("a")], 2, None)]
  }

  function Pair(a: OutId, b: OutId): seq<Rule> {
    [MatchAll(a, 5), MatchAll(b, 5)]
  }

  function PairLabels(a: OutId, b: OutId): seq<Tagged> {
    [Tagged(Custom(a), None), Tagged(Custom(b), None)]
  }

  lemma OrderOfTwo(order: seq<OutId>)
    requires Orders(order, TwoRules(false).Keys)
    ensures order == ["a", "b"] || order == ["b", "a"]
  {
    assert "a" in order && "b" in order;
    assert |order| >= 2;
    var k := if |order| > 2 then 2 else 0;
    var x, y, z := order[0], order[1], order[k];
    assert x in order && y in order && z in order;
    assert k == 2 ==> z != x && z != y;
  }

  lemma WithKeyOfTwo(x: Rule, y: Rule, k: int)
    ensures WithKey([x, y], Priority, k) ==
            (if Priority(x) == k then [x] else []) + (if Priority(y) == k then [y] else [])
  {
    WithKeySnoc([x], y, k);
    WithKeySnoc([], x, k);
    assert [x, y] == [x] + [y] && [x] == [] + [x];
  }

  lemma WithKeyOfFour(w: Rule, x: Rule, y: Rule, z: Rule, k: int)
    ensures WithKey([w, x, y, z], Priority, k) == WithKey([w, x], Priority, k) + WithKey([y, z], Priority, k)
  {
    WithKeyConcat([w, x], [y, z], Priority, k);
    assert [w, x, y, z] == [w, x] + [y, z];
  }

  lemma KeysOfFour(w: Rule, x: Rule, y: Rule, z: Rule, k: int)
    requires Priority(w) < Priority(x) < Priority(y) == Priority(z)
    ensures k == Priority(w) ==> WithKey([w, x, y, z], Priority, k) == [w]
    ensures k == Priority(x) ==> WithKey([w, x, y, z], Priority, k) == [x]
    ensures k == Priority(y) ==> WithKey([w, x, y, z], Priority, k) == [y, z]
  {
    WithKeyOfFour(w, x, y, z, k);
    WithKeyOfTwo(w, x, k);
    WithKeyOfTwo(y, z, k);
  }

  lemma CachedOfFour(w: Rule, x: Rule, y: Rule, z: Rule)
    requires Priority(w) < Priority(x) < Priority(y) == Priority(z)
    ensures Cached([[w], [x], [y, z]], [w, x, y, z])
  {
    var cache := [[w], [x], [y, z]];
    KeysOfFour(w, x, y, z, Priority(w));
    KeysOfFour(w, x, y, z, Priority(x));
    KeysOfFour(w, x, y, z, Priority(y));
    assert cache[0] == [w] && cache[1] == [x] && cache[2] == [y, z];
    forall r | r in [w, x, y, z]
      ensures exists i :: 0 <= i < |cache| && Priority(cache[i][0]) == Priority(r)
    {
      var i := if r == w then 0 else if r == x then 1 else 2;
      assert Priority(cache[i][0]) == Priority(r);
    }
  }

  lemma BothOrdersCached(a: OutId, b: OutId)
    ensures Cached([[BothOrders()[0]], [BothOrders()[1]], Pair(a, b)], BothOrders() + Pair(a, b))
  {
    var x, y := BothOrders()[0], BothOrders()[1];
    assert BothOrders() + Pair(a, b) == [x, y, MatchAll(a, 5), MatchAll(b, 5)];
    CachedOfFour(x, y, MatchAll(a, 5), MatchAll(b, 5));
  }

  lemma PairLabelled(a: OutId, b: OutId, conn: Connection)
    ensures PlainLabels(Pair(a, b), conn) == PairLabels(a, b)
  {
    assert Pair(a, b) == [MatchAll(a, 5)] + [MatchAll(b, 5)];
    PlainLabelsConcat([MatchAll(a, 5)], [MatchAll(b, 5)], conn);
    OneRuleLabels(MatchAll(a, 5), conn);
    OneRuleLabels(MatchAll(b, 5), conn);
    assert PairLabels(a, b) == TagAll(MatchAll(a, 5)) + TagAll(MatchAll(b, 5));
  }

  lemma BothOrdersLabelled(conn: Connection)
    ensures PlainLabels([BothOrders()[0]], conn) == PairLabels("a", "b")
    ensures PlainLabels([BothOrders()[1]], conn) == PairLabels("b", "a")
  {
    OneRuleLabels(BothOrders()[0], conn);
    OneRuleLabels(BothOrders()[1], conn);
  }

  lemma ThreeGroups(x: seq<Rule>, y: seq<Rule>, z: seq<Rule>, conn: Connection)
    requires PlainLabels(x, conn) != [] && PlainLabels(y, conn) != [] && PlainLabels(z, conn) != []
    ensures PlainGroups([x, y, z], conn) == [PlainLabels(x, conn), PlainLabels(y, conn), PlainLabels(z, conn)]
  {
    OneGroup(z, conn, []);
    assert [x, y, z][1..] == [y, z] && [y, z][1..] == [z];
  }

  lemma UniqueOfThree<T(!new)>(x: T, y: T, z: T)
    requires x != y && (z == x || z == y)
    ensures Unique([x, y, z]) == [x, y]
  {
    var front := [x, y];
    assert [x, y, z][..2] == front && z in front;
    assert front[..1] == [x] && [x][..0] == [];
    assert Unique([x]) == [x];
  }

  lemma BothOrdersMatch(a: OutId, b: OutId, conn: Connection)
    requires (a == "a" && b == "b") || (a == "b" && b == "a")
    ensures var cache := [[BothOrders()[0]], [BothOrders()[1]], Pair(a, b)];
            Unique(PlainGroups(cache, conn)) == [PairLabels("a", "b"), PairLabels("b", "a")]
  {
    BothOrdersLabelled(conn);
    PairLabelled(a, b, conn);
    ThreeGroups([BothOrders()[0]], [BothOrders()[1]], Pair(a, b), conn);
    assert PairLabels("a", "b")[0] != PairLabels("b", "a")[0];
    UniqueOfThree(PairLabels("a", "b"), PairLabels("b", "a"), PairLabels(a, b));
  }

  lemma BothOrdersSource(a: OutId, b: OutId)
    requires (a == "a" && b == "b") || (a == "b" && b == "a")
    ensures Source(BothOrders(), TwoRules(false), [a, b]) == BothOrders() + Pair(a, b)
  {
    TwoOuts(TwoRules(false), a, b);
  }

  lemma BothOrdersUpTo(a: OutId, b: OutId)
    ensures var groups := [[BothOrders()[0]], [BothOrders()[1]], Pair(a, b)];
            UpTo(groups, 5) == groups
  {
    var groups := [[BothOrders()[0]], [BothOrders()[1]], Pair(a, b)];
    UpToIs(groups, 5, 3);
    assert groups[..3] == groups;
  }

  /** Whatever the order, there is one cache. */
  lemma BothOrdersCacheIs(cache: seq<seq<Rule>>, a: OutId, b: OutId)
    requires (a == "a" && b == "b") || (a == "b" && b == "a")
    requires Cached(cache, Source(BothOrders(), TwoRules(false), [a, b]))
    ensures cache == [[BothOrders()[0]], [BothOrders()[1]], Pair(a, b)]
  {
    BothOrdersSource(a, b);
    BothOrdersCached(a, b);
    CacheUnique(cache, [[BothOrders()[0]], [BothOrders()[1]], Pair(a, b)], BothOrders() + Pair(a, b));
  }

  lemma BothOrdersLead(cache: seq<seq<Rule>>, order: seq<OutId>, conn: Connection)
    requires CacheOf(cache, BothOrders(), TwoRules(false), order)
    ensures Unique(LeadLabels(cache, 5, conn)) == [PairLabels("a", "b"), PairLabels("b", "a")]
  {
    OrderOfTwo(order);
    LabelsOfLead(cache, Source(BothOrders(), TwoRules(false), order), 5, conn);
    var a := order[0];
    var b := if a == "a" then "b" else "a";
    BothOrdersCacheIs(cache, a, b);
    BothOrdersUpTo(a, b);
    BothOrdersMatch(a, b, conn);
  }

  lemma BothMatch(conn: Connection)
    ensures !OneOutEach(TwoRules(false), "c", 5, EmitsFor(conn))
  {
    var outs := TwoRules(false);
    var r, s := MatchAll("a", 5), MatchAll("b", 5);
    assert outs["a"].rules == [r] && outs["b"].rules == [s];
    assert r in outs["a"].rules && s in outs["b"].rules;
    assert EmitsFor(conn)(r) && EmitsFor(conn)(s) && Priority(r) == Priority(s);
    assert "a" in outs && "b" in outs && "a" != "b" && "a" != "c" && "b" != "c";
  }

  /** Where IN rules name both OUTs in both orders, deduplication hides the hash order: two OUTs match at one
      priority, and what `match` produces is fixed all the same. */
  lemma DeduplicationHidesOrder(conn: Connection)
    ensures MatchFixed(BothOrders(), TwoRules(false), TwoRules(false), 5, conn)
    ensures !OneOutEach(TwoRules(false), "c", 5, EmitsFor(conn))
  {
    forall order, order', cache, cache' |
        && CacheOf(cache, BothOrders(), TwoRules(false), order)
        && CacheOf(cache', BothOrders(), TwoRules(false), order')
      ensures Unique(LeadLabels(cache, 5, conn)) == Unique(LeadLabels(cache', 5, conn))
    {
      BothOrdersLead(cache, order, conn);
      BothOrdersLead(cache', order', conn);
    }
    BothMatch(conn);
  }
}
