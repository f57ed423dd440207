/** What a selection means without the index: against the tunnels themselves, under
    deduplication of the groups, and over consecutive selections. */
module SelectionMeaning {
  import opened Prelude
  import opened Ids
  import opened Seqs
  import opened Rules
  import opened Matching
  import opened Selection

  ghost predicate Ends(l: Label, tunnels: seq<Tunnel>, active: set<TunnelId>) {
    l == BuiltIn(Direct) || (l.Custom? && HasCarrier(tunnels, l, active))
  }

  ghost predicate NoneEnds(labels: seq<Tagged>, tunnels: seq<Tunnel>, active: set<TunnelId>) {
    forall k :: 0 <= k < |labels| ==> !Ends(labels[k].target, tunnels, active)
  }

  /** The group offers a way out: DIRECT, a custom label with an active tunnel, or PROXY/ANY while
      any tunnel is active. */
  ghost predicate Settles(labels: seq<Tagged>, tunnels: seq<Tunnel>, active: set<TunnelId>) {
    || !NoneEnds(labels, tunnels, active)
    || ((exists k :: 0 <= k < |labels| && labels[k].target in {BuiltIn(Proxy), BuiltIn(Any)})
        && exists t :: t in tunnels && t.id in active)
  }

  /** What the group's first ending label, or its first PROXY/ANY, selects. */
  ghost predicate SettledAs(labels: seq<Tagged>, tunnels: seq<Tunnel>, active: set<TunnelId>, s: Selected) {
    || (exists j ::
          && 0 <= j < |labels|
          && NoneEnds(labels[..j], tunnels, active)
          && Ends(labels[j].target, tunnels, active)
          && s.tag == labels[j].tag
          && (if s.ViaDirect? then labels[j].target == BuiltIn(Direct)
              else labels[j].target.Custom? && BestCarrier(s.tunnel, tunnels, labels[j].target, active)))
    || (&& NoneEnds(labels, tunnels, active)
        && s.ViaTunnel?
        && BestCarrier(s.tunnel, tunnels, BuiltIn(Proxy), active)
        && exists j ::
             && 0 <= j < |labels|
             && labels[j].target in {BuiltIn(Proxy), BuiltIn(Any)}
             && (forall k :: 0 <= k < j ==> labels[k].target !in {BuiltIn(Proxy), BuiltIn(Any)})
             && s.tag == labels[j].tag)
  }

  ghost predicate NoneSettles(groups: seq<seq<Tagged>>, tunnels: seq<Tunnel>, active: set<TunnelId>) {
    forall i :: 0 <= i < |groups| ==> !Settles(groups[i], tunnels, active)
  }

  ghost predicate LastAnyTag(labels: seq<Tagged>, tag: Option<string>) {
    exists k ::
      && 0 <= k < |labels|
      && labels[k] == Tagged(BuiltIn(Any), tag)
      && forall m :: k < m < |labels| ==> labels[m].target != BuiltIn(Any)
  }

  /** The search as one would state it over the tunnels alone. */
  ghost predicate Chosen(
      groups: seq<seq<Tagged>>, tunnels: seq<Tunnel>, active: set<TunnelId>, selected: Option<Selected>)
  {
    match selected
    case None =>
      NoneSettles(groups, tunnels, active)
      && forall x :: x in Flatten(groups) ==> x.target != BuiltIn(Any)
    case Some(s) =>
      || (exists i ::
            && 0 <= i < |groups|
            && NoneSettles(groups[..i], tunnels, active)
            && SettledAs(groups[i], tunnels, active, s))
      || (NoneSettles(groups, tunnels, active) && s.ViaDirect? && LastAnyTag(Flatten(groups), s.tag))
  }

  lemma DecisiveMeansEnds(index: LabelIndex, tunnels: seq<Tunnel>, l: Label, active: set<TunnelId>)
    requires Indexed(index, tunnels)
    ensures Decisive(l, index, active) <==> Ends(l, tunnels, active)
  {
    FromIndexIsBest(index, tunnels, l, 0, active);
  }

  lemma {:induction false} FirstDecisiveAt(
      labels: seq<Tagged>, index: LabelIndex, tunnels: seq<Tunnel>, active: set<TunnelId>) returns (j: nat)
    requires Indexed(index, tunnels)
    ensures FirstDecisive(labels, index, active).None? ==> NoneEnds(labels, tunnels, active)
    ensures FirstDecisive(labels, index, active).Some? ==>
              j < |labels| && labels[j] == FirstDecisive(labels, index, active).value
              && NoneEnds(labels[..j], tunnels, active) && Ends(labels[j].target, tunnels, active)
  {
    j := 0;
    if labels != [] {
      var last := |labels| - 1;
      j := FirstDecisiveAt(labels[..last], index, tunnels, active);
      DecisiveMeansEnds(index, tunnels, labels[last].target, active);
      assert forall k :: 0 <= k < last ==> labels[..last][k] == labels[k];
      if FirstDecisive(labels[..last], index, active).None? {
        j := last;
      } else {
        assert labels[..last][..j] == labels[..j];
      }
    }
  }

  lemma {:induction false} FirstProxyAt(labels: seq<Tagged>) returns (j: nat)
    ensures FirstProxy(labels).None? ==>
              forall k :: 0 <= k < |labels| ==> labels[k].target !in {BuiltIn(Proxy), BuiltIn(Any)}
    ensures FirstProxy(labels).Some? ==>
              j < |labels| && labels[j] == FirstProxy(labels).value
              && labels[j].target in {BuiltIn(Proxy), BuiltIn(Any)}
              && forall k :: 0 <= k < j ==> labels[k].target !in {BuiltIn(Proxy), BuiltIn(Any)}
  {
    j := 0;
    if labels != [] {
      var last := |labels| - 1;
      j := FirstProxyAt(labels[..last]);
      assert forall k :: 0 <= k < last ==> labels[..last][k] == labels[k];
      if FirstProxy(labels[..last]).None? {
        j := last;
      }
    }
  }

  lemma {:induction false} LastAnyAt(labels: seq<Tagged>)
    ensures LastAny(labels).None? <==> forall x :: x in labels ==> x.target != BuiltIn(Any)
    ensures LastAny(labels).Some? ==> LastAnyTag(labels, LastAny(labels).value.tag)
  {
    if labels != [] {
      var last := |labels| - 1;
      LastAnyAt(labels[..last]);
      assert labels == labels[..last] + [labels[last]];
      if labels[last].target == BuiltIn(Any) {
        assert labels[last] == Tagged(BuiltIn(Any), labels[last].tag);
      } else if LastAny(labels).Some? {
        var tag := LastAny(labels).value.tag;
        var k :| 0 <= k < last && labels[..last][k] == Tagged(BuiltIn(Any), tag)
                 && forall m :: k < m < last ==> labels[..last][m].target != BuiltIn(Any);
        assert labels[k] == Tagged(BuiltIn(Any), tag);
        assert forall m :: k < m < last ==> labels[m] == labels[..last][m];
      }
    }
  }

  lemma ProxyCarriers(tunnels: seq<Tunnel>, active: set<TunnelId>)
    ensures HasCarrier(tunnels, BuiltIn(Proxy), active) <==> exists t :: t in tunnels && t.id in active
  {
    if t :| t in tunnels && t.id in active {
      assert Carrier(t, tunnels, BuiltIn(Proxy), active);
    }
  }

  lemma GroupRefines(labels: seq<Tagged>, index: LabelIndex, tunnels: seq<Tunnel>, n: nat, active: set<TunnelId>)
    requires Indexed(index, tunnels)
    ensures GroupChoice(labels, index, n, active).Some? <==> Settles(labels, tunnels, active)
    ensures GroupChoice(labels, index, n, active).Some? ==>
              SettledAs(labels, tunnels, active, GroupChoice(labels, index, n, active).value)
  {
    var j := FirstDecisiveAt(labels, index, tunnels, active);
    var p := FirstProxyAt(labels);
    var decisive := FirstDecisive(labels, index, active);
    ProxyCarriers(tunnels, active);
    FromIndexIsBest(index, tunnels, BuiltIn(Proxy), n, active);
    if decisive.Some? {
      FromIndexIsBest(index, tunnels, decisive.value.target, n, active);
    }
  }

  lemma {:induction false} FirstChoiceAt(
      groups: seq<seq<Tagged>>, index: LabelIndex, tunnels: seq<Tunnel>, n: nat, active: set<TunnelId>) returns (i: nat)
    requires Indexed(index, tunnels)
    ensures FirstChoice(groups, index, n, active).None? <==> NoneSettles(groups, tunnels, active)
    ensures FirstChoice(groups, index, n, active).Some? ==>
              i < |groups| && NoneSettles(groups[..i], tunnels, active)
              && FirstChoice(groups, index, n, active) == GroupChoice(groups[i], index, n, active)
  {
    i := 0;
    if groups != [] {
      var last := |groups| - 1;
      i := FirstChoiceAt(groups[..last], index, tunnels, n, active);
      GroupRefines(groups[last], index, tunnels, n, active);
      assert forall k :: 0 <= k < last ==> groups[..last][k] == groups[k];
      if FirstChoice(groups[..last], index, n, active).None? {
        i := last;
      } else {
        assert groups[..last][..i] == groups[..i];
      }
    }
  }

  /** Indexed selection refines the search over the tunnels, for every counter value. */
  lemma SelectRefines(groups: seq<seq<Tagged>>, index: LabelIndex, tunnels: seq<Tunnel>, n: nat, active: set<TunnelId>)
    requires Indexed(index, tunnels)
    ensures Chosen(groups, tunnels, active, Select(groups, index, n, active))
  {
    var i := FirstChoiceAt(groups, index, tunnels, n, active);
    LastAnyAt(Flatten(groups));
    if FirstChoice(groups, index, n, active).Some? {
      GroupRefines(groups[i], index, tunnels, n, active);
    }
  }

  /** Nothing is selected iff no group has a way out and none names ANY. */
  lemma SelectNone(groups: seq<seq<Tagged>>, index: LabelIndex, tunnels: seq<Tunnel>, n: nat, active: set<TunnelId>)
    requires Indexed(index, tunnels)
    ensures Select(groups, index, n, active).None? <==>
            NoneSettles(groups, tunnels, active) && forall x :: x in Flatten(groups) ==> x.target != BuiltIn(Any)
  {
    var i := FirstChoiceAt(groups, index, tunnels, n, active);
    LastAnyAt(Flatten(groups));
  }

  // ---- Deduplication ----

  lemma {:induction false} NoChoiceInside(
      groups: seq<seq<Tagged>>, g: seq<Tagged>, index: LabelIndex, n: nat, active: set<TunnelId>)
    requires FirstChoice(groups, index, n, active).None? && g in groups
    ensures GroupChoice(g, index, n, active).None?
  {
    var last := |groups| - 1;
    assert groups == groups[..last] + [groups[last]];
    if g != groups[last] {
      NoChoiceInside(groups[..last], g, index, n, active);
    }
  }

  lemma {:induction false} UniqueKeepsChoice(groups: seq<seq<Tagged>>, index: LabelIndex, n: nat, active: set<TunnelId>)
    ensures FirstChoice(Unique(groups), index, n, active) == FirstChoice(groups, index, n, active)
  {
    if groups != [] {
      var front, g := groups[..|groups| - 1], groups[|groups| - 1];
      UniqueKeepsChoice(front, index, n, active);
      if g in front {
        if FirstChoice(front, index, n, active).None? {
          NoChoiceInside(front, g, index, n, active);
        }
      } else {
        assert (Unique(front) + [g])[..|Unique(front)|] == Unique(front);
      }
    }
  }

  lemma {:induction false} FlattenMembers(groups: seq<seq<Tagged>>)
    ensures forall x :: x in Flatten(groups) <==> exists i :: 0 <= i < |groups| && x in groups[i]
  {
    if groups != [] {
      FlattenMembers(groups[1..]);
      forall x
        ensures x in Flatten(groups) <==> exists i :: 0 <= i < |groups| && x in groups[i]
      {
        if x in Flatten(groups[1..]) {
          var i :| 0 <= i < |groups[1..]| && x in groups[1..][i];
          assert x in groups[i + 1];
        }
        if i :| 0 <= i < |groups| && x in groups[i] {
          assert i == 0 || x in groups[1..][i - 1];
        }
      }
    }
  }

  /** The last of the groups that names ANY. */
  function LastAnyGroup(groups: seq<seq<Tagged>>): Option<seq<Tagged>> {
    if groups == [] then None
    else if LastAny(groups[|groups| - 1]).Some? then Some(groups[|groups| - 1])
    else LastAnyGroup(groups[..|groups| - 1])
  }

  lemma {:induction false} LastAnyOfGroups(groups: seq<seq<Tagged>>)
    ensures LastAny(Flatten(groups)) == if LastAnyGroup(groups).Some? then LastAny(LastAnyGroup(groups).value) else None
  {
    if groups != [] {
      var front, g := groups[..|groups| - 1], groups[|groups| - 1];
      assert groups == front + [g];
      FlattenSnoc(front, g);
      LastAnyConcat(Flatten(front), g);
      LastAnyOfGroups(front);
    }
  }

  predicate NamesAny(g: seq<Tagged>) {
    exists k :: 0 <= k < |g| && g[k].target == BuiltIn(Any)
  }

  /** The last group that names ANY. */
  ghost predicate IsLastAny(groups: seq<seq<Tagged>>, k: nat) {
    && k < |groups| && NamesAny(groups[k])
    && forall m :: k < m < |groups| ==> !NamesAny(groups[m])
  }

  /** The group naming ANY that is the last of these to be seen for the first time. */
  ghost predicate IsLastNewAny(groups: seq<seq<Tagged>>, i: nat) {
    && i < |groups| && NamesAny(groups[i]) && groups[i] !in groups[..i]
    && forall m :: i < m < |groups| && NamesAny(groups[m]) ==> groups[m] in groups[..m]
  }

  /** These two groups, where there are any, end in the same ANY tag. */
  ghost predicate SameFallthrough(groups: seq<seq<Tagged>>) {
    forall i: nat, k: nat :: IsLastNewAny(groups, i) && IsLastAny(groups, k) ==>
      exists tag :: LastAnyTag(groups[i], tag) && LastAnyTag(groups[k], tag)
  }

  lemma LastAnyWhenNamed(g: seq<Tagged>)
    ensures LastAny(g).Some? <==> NamesAny(g)
    ensures LastAny(g).Some? ==> LastAnyTag(g, LastAny(g).value.tag)
    ensures forall tag :: LastAnyTag(g, tag) ==> LastAny(g).Some? && LastAny(g).value.tag == tag
  {
    LastAnyAt(g);
    if LastAny(g).Some? {
      forall tag | LastAnyTag(g, tag)
        ensures LastAny(g).value.tag == tag
      {
        OneLastAny(g, tag, LastAny(g).value.tag);
      }
    }
  }

  lemma OneLastAny(g: seq<Tagged>, a: Option<string>, b: Option<string>)
    requires LastAnyTag(g, a) && LastAnyTag(g, b)
    ensures a == b
  {
    var i :| 0 <= i < |g| && g[i] == Tagged(BuiltIn(Any), a) && forall m :: i < m < |g| ==> g[m].target != BuiltIn(Any);
    var j :| 0 <= j < |g| && g[j] == Tagged(BuiltIn(Any), b) && forall m :: j < m < |g| ==> g[m].target != BuiltIn(Any);
    assert !(i < j) && !(j < i);
  }

  lemma {:induction false} LastAnyGroupAt(groups: seq<seq<Tagged>>) returns (k: nat)
    ensures LastAnyGroup(groups).None? ==> forall m :: 0 <= m < |groups| ==> !NamesAny(groups[m])
    ensures LastAnyGroup(groups).Some? ==> IsLastAny(groups, k) && groups[k] == LastAnyGroup(groups).value
  {
    k := 0;
    if groups != [] {
      var last := |groups| - 1;
      LastAnyWhenNamed(groups[last]);
      if NamesAny(groups[last]) {
        k := last;
      } else {
        k := LastAnyGroupAt(groups[..last]);
        assert forall m :: 0 <= m < last ==> groups[..last][m] == groups[m];
      }
    }
  }

  lemma KeepsLastNew(front: seq<seq<Tagged>>, g: seq<Tagged>, i: nat)
    requires IsLastNewAny(front, i) && (g in front || !NamesAny(g))
    ensures IsLastNewAny(front + [g], i) && (front + [g])[i] == front[i]
  {
    var groups := front + [g];
    assert groups[..i] == front[..i];
    forall m | i < m < |groups| && NamesAny(groups[m])
      ensures groups[m] in groups[..m]
    {
      assert groups[..m] == front[..m];
    }
  }

  lemma BecomesLastNew(front: seq<seq<Tagged>>, g: seq<Tagged>)
    requires g !in front && NamesAny(g)
    ensures IsLastNewAny(front + [g], |front|)
  {
    assert (front + [g])[..|front|] == front;
  }

  lemma UniqueSnoc(front: seq<seq<Tagged>>, g: seq<Tagged>)
    ensures Unique(front + [g]) == if g in front then Unique(front) else Unique(front) + [g]
    ensures LastAnyGroup(Unique(front) + [g]) == if LastAny(g).Some? then Some(g) else LastAnyGroup(Unique(front))
  {
    assert (front + [g])[..|front|] == front;
    assert (Unique(front) + [g])[..|Unique(front)|] == Unique(front);
  }

  /** Deduplication makes it the last group naming ANY. */
  lemma {:induction false} LastNewAnyAt(groups: seq<seq<Tagged>>) returns (i: nat)
    ensures LastAnyGroup(Unique(groups)).Some? ==>
              IsLastNewAny(groups, i) && groups[i] == LastAnyGroup(Unique(groups)).value
  {
    i := 0;
    if groups != [] {
      var front, g := groups[..|groups| - 1], groups[|groups| - 1];
      assert groups == front + [g];
      UniqueSnoc(front, g);
      LastAnyWhenNamed(g);
      if g !in front && NamesAny(g) {
        i := |front|;
        BecomesLastNew(front, g);
      } else {
        i := LastNewAnyAt(front);
        if LastAnyGroup(Unique(front)).Some? {
          KeepsLastNew(front, g, i);
        }
      }
    }
  }

  lemma OneLastNewAny(groups: seq<seq<Tagged>>, i: nat, j: nat)
    requires IsLastNewAny(groups, i) && IsLastNewAny(groups, j)
    ensures i == j
  {
  }

  lemma OneIsLastAny(groups: seq<seq<Tagged>>, i: nat, j: nat)
    requires IsLastAny(groups, i) && IsLastAny(groups, j)
    ensures i == j
  {
  }

  lemma SameFallthroughAt(groups: seq<seq<Tagged>>, i: nat, k: nat)
    requires IsLastNewAny(groups, i) && IsLastAny(groups, k)
    ensures LastAny(groups[i]).Some? && LastAny(groups[k]).Some?
    ensures SameFallthrough(groups) <==> LastAny(groups[i]).value.tag == LastAny(groups[k]).value.tag
  {
    LastAnyWhenNamed(groups[i]);
    LastAnyWhenNamed(groups[k]);
    forall i': nat, k': nat | IsLastNewAny(groups, i') && IsLastAny(groups, k')
      ensures i' == i && k' == k
    {
      OneLastNewAny(groups, i, i');
      OneIsLastAny(groups, k, k');
    }
  }

  /** The tag reported when nothing settles, in full and deduplicated, agree just when the groups say so. */
  lemma FallthroughsAgree(groups: seq<seq<Tagged>>)
    ensures TagOf(LastAny(Flatten(groups))) == TagOf(LastAny(Flatten(Unique(groups)))) <==> SameFallthrough(groups)
  {
    LastAnyOfGroups(groups);
    LastAnyOfGroups(Unique(groups));
    UniqueKeepsAny(groups);
    var k := LastAnyGroupAt(groups);
    var i := LastNewAnyAt(groups);
    if LastAnyGroup(groups).Some? {
      SameFallthroughAt(groups, i, k);
    }
  }

  lemma {:induction false} LastAnyIsAny(groups: seq<seq<Tagged>>)
    ensures LastAnyGroup(groups).Some? ==> LastAny(LastAnyGroup(groups).value).Some?
  {
    if groups != [] {
      LastAnyIsAny(groups[..|groups| - 1]);
    }
  }

  lemma {:induction false} UniqueKeepsAny(groups: seq<seq<Tagged>>)
    ensures LastAnyGroup(Unique(groups)).Some? <==> LastAnyGroup(groups).Some?
    ensures LastAnyGroup(groups).Some? ==> LastAnyGroup(groups).value in groups
    ensures (forall g :: g in groups ==> LastAny(g).None?) <==> LastAnyGroup(groups).None?
  {
    if groups != [] {
      var front, g := groups[..|groups| - 1], groups[|groups| - 1];
      assert groups == front + [g];
      UniqueKeepsAny(front);
      if g !in front {
        assert (Unique(front) + [g])[..|Unique(front)|] == Unique(front);
      }
    }
  }

  lemma {:induction false} SomeGroupChooses(
      groups: seq<seq<Tagged>>, index: LabelIndex, n: nat, active: set<TunnelId>)
    ensures FirstChoice(groups, index, n, active).Some? <==>
              exists g :: g in groups && GroupChoice(g, index, n, active).Some?
  {
    if groups != [] {
      var front, last := groups[..|groups| - 1], groups[|groups| - 1];
      assert groups == front + [last];
      SomeGroupChooses(front, index, n, active);
      if FirstChoice(front, index, n, active).Some? {
        var g :| g in front && GroupChoice(g, index, n, active).Some?;
        assert g in groups;
      }
    }
  }

  /** Deduplication never changes which tunnel is selected. It changes the tag only in the final
      fallthrough to direct, and exactly when the group naming ANY that is new last and the one that
      comes last carry different last ANY tags. */
  lemma DeduplicationKeepsSelection(groups: seq<seq<Tagged>>, index: LabelIndex, n: nat, active: set<TunnelId>)
    ensures var full, unique := Select(groups, index, n, active), Select(Unique(groups), index, n, active);
            && full.Some? == unique.Some?
            && (full.Some? ==> full.value.ViaDirect? == unique.value.ViaDirect?)
            && (full.Some? && full.value.ViaTunnel? ==> full == unique)
    ensures Select(groups, index, n, active) == Select(Unique(groups), index, n, active) <==>
              (exists g :: g in groups && GroupChoice(g, index, n, active).Some?) || SameFallthrough(groups)
  {
    UniqueKeepsChoice(groups, index, n, active);
    UniqueKeepsAny(groups);
    LastAnyOfGroups(groups);
    LastAnyOfGroups(Unique(groups));
    LastAnyIsAny(groups);
    LastAnyIsAny(Unique(groups));
    SomeGroupChooses(groups, index, n, active);
    FallthroughsAgree(groups);
  }

  /** Such groups exist: the tag reported after deduplication is not the one before it. */
  lemma DeduplicationCanChangeTag() returns (groups: seq<seq<Tagged>>)
    ensures Select(groups, map[], 0, {}) == Some(ViaDirect(Some("a")))
    ensures Select(Unique(groups), map[], 0, {}) == Some(ViaDirect(Some("b")))
  {
    var a := [Tagged(BuiltIn(Any), Some("a"))];
    var b := [Tagged(BuiltIn(Any), Some("b"))];
    groups := [a, b, a];
    assert groups[..2] == [a, b];
    assert [a, b][..1] == [a];
    var one: seq<seq<Tagged>> := [a];
    assert one[..0] == [];
    assert a[0] != b[0];
    assert Unique(one) == [a];
    assert Unique([a, b]) == [a, b];
    assert Unique(groups) == [a, b];
    assert a[..0] == [];
    assert b[..0] == [];
    assert GroupChoice(a, map[], 0, {}).None? && GroupChoice(b, map[], 0, {}).None?;
    assert FirstChoice([a], map[], 0, {}).None?;
    assert FirstChoice([a, b], map[], 0, {}).None?;
    LastAnyOfGroups(groups);
    LastAnyOfGroups([a, b]);
  }
}
