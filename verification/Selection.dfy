/** Choosing a tunnel from the label index, and what the choice means in terms of the tunnels. */
module Selection {
  import opened Prelude
  import opened Ids
  import opened Seqs
  import opened Rules
  import opened Matching

  datatype Tunnel = Tunnel(id: TunnelId, out: OutId, labels: seq<Label>, priority: i64)

  type LabelIndex = map<Label, seq<Tunnel>>

  datatype Selected = ViaDirect(tag: Option<string>) | ViaTunnel(tunnel: Tunnel, tag: Option<string>)

  function TunnelPriority(t: Tunnel): int {
    t.priority
  }

  /** The labels a tunnel is indexed under. */
  function Carried(t: Tunnel): seq<Label> {
    t.labels + [BuiltIn(Proxy), Custom(t.out)]
  }

  // ---- The index ----

  function Repeated(t: Tunnel, labels: seq<Label>, l: Label): seq<Tunnel> {
    if labels == [] then []
    else
      var front := Repeated(t, labels[..|labels| - 1], l);
      if labels[|labels| - 1] == l then front + [t] else front
  }

  /** The tunnels that carry `l`, each as often as it carries it. */
  function Bucket(tunnels: seq<Tunnel>, l: Label): seq<Tunnel> {
    if tunnels == [] then []
    else
      var t := tunnels[|tunnels| - 1];
      Bucket(tunnels[..|tunnels| - 1], l) + Repeated(t, Carried(t), l)
  }

  ghost predicate Buckets(index: LabelIndex, tunnels: seq<Tunnel>) {
    forall l :: (l in index <==> Bucket(tunnels, l) != []) && (l in index ==> index[l] == Bucket(tunnels, l))
  }

  /** The definition of the index for the tunnels in force, taken in the order of the hash map. */
  ghost predicate Indexed(index: LabelIndex, tunnels: seq<Tunnel>) {
    forall l :: (l in index <==> Bucket(tunnels, l) != [])
                && (l in index ==> index[l] == SortByKey(Bucket(tunnels, l), TunnelPriority))
  }

  lemma {:induction false} RepeatedMembers(t: Tunnel, labels: seq<Label>, l: Label)
    ensures forall x :: x in Repeated(t, labels, l) <==> x == t && l in labels
  {
    if labels != [] {
      RepeatedMembers(t, labels[..|labels| - 1], l);
      assert labels == labels[..|labels| - 1] + [labels[|labels| - 1]];
    }
  }

  lemma {:induction false} BucketMembers(tunnels: seq<Tunnel>, l: Label)
    ensures forall x :: x in Bucket(tunnels, l) <==> x in tunnels && l in Carried(x)
  {
    if tunnels != [] {
      var t := tunnels[|tunnels| - 1];
      BucketMembers(tunnels[..|tunnels| - 1], l);
      RepeatedMembers(t, Carried(t), l);
      assert tunnels == tunnels[..|tunnels| - 1] + [t];
    }
  }

  /** The index said on the tunnels: the entries of a label are the tunnels that list it, or for which it is
      PROXY or the id of their OUT. */
  ghost predicate ListsCarriers(index: LabelIndex, tunnels: seq<Tunnel>) {
    && (forall l :: l in index ==> index[l] != [])
    && (forall l, t :: (l in index && t in index[l])
          <==> t in tunnels && (l in t.labels || l == BuiltIn(Proxy) || l == Custom(t.out)))
  }

  /** A tunnel that is in force once has as many entries as it lists the label. */
  ghost predicate ListsAsOften(index: LabelIndex, tunnels: seq<Tunnel>) {
    forall l, t :: l in index && multiset(tunnels)[t] == 1 ==>
      multiset(index[l])[t] == multiset(t.labels + [BuiltIn(Proxy), Custom(t.out)])[l]
  }

  ghost predicate ListsByPriority(index: LabelIndex) {
    forall l, i, j :: l in index && 0 <= i < j < |index[l]| ==> index[l][i].priority <= index[l][j].priority
  }

  lemma {:induction false} RepeatedCount(t: Tunnel, labels: seq<Label>, l: Label, x: Tunnel)
    ensures |Repeated(t, labels, l)| == multiset(labels)[l]
    ensures multiset(Repeated(t, labels, l))[x] == if x == t then multiset(labels)[l] else 0
  {
    if labels != [] {
      RepeatedCount(t, labels[..|labels| - 1], l, x);
      assert labels == labels[..|labels| - 1] + [labels[|labels| - 1]];
    }
  }

  lemma BucketSnoc(front: seq<Tunnel>, t: Tunnel, l: Label, x: Tunnel)
    ensures multiset(Bucket(front + [t], l))[x] ==
            multiset(Bucket(front, l))[x] + if x == t then multiset(Carried(x))[l] else 0
  {
    assert (front + [t])[..|front|] == front;
    RepeatedCount(t, Carried(t), l, x);
  }

  lemma {:induction false} BucketCount(tunnels: seq<Tunnel>, l: Label, x: Tunnel)
    requires multiset(tunnels)[x] <= 1
    ensures multiset(Bucket(tunnels, l))[x] == if x in tunnels then multiset(Carried(x))[l] else 0
  {
    if tunnels != [] {
      var front, t := tunnels[..|tunnels| - 1], tunnels[|tunnels| - 1];
      assert tunnels == front + [t];
      BucketCount(front, l, x);
      BucketSnoc(front, t, l, x);
      assert multiset(front)[x] > 0 <==> x in front;
    }
  }

  lemma CarriedMeans(t: Tunnel, l: Label)
    ensures l in Carried(t) <==> l in t.labels || l == BuiltIn(Proxy) || l == Custom(t.out)
  {
    var extra := [BuiltIn(Proxy), Custom(t.out)];
    assert extra[0] == BuiltIn(Proxy) && extra[1] == Custom(t.out);
  }

  lemma IndexedEntry(index: LabelIndex, tunnels: seq<Tunnel>, l: Label, t: Tunnel)
    requires Indexed(index, tunnels)
    ensures (l in index && t in index[l])
       <==> t in tunnels && (l in t.labels || l == BuiltIn(Proxy) || l == Custom(t.out))
  {
    BucketMembers(tunnels, l);
    CarriedMeans(t, l);
    SortedMembers(Bucket(tunnels, l));
  }

  lemma IndexedCount(index: LabelIndex, tunnels: seq<Tunnel>, l: Label, t: Tunnel)
    requires Indexed(index, tunnels) && l in index && multiset(tunnels)[t] == 1
    ensures multiset(index[l])[t] == multiset(t.labels + [BuiltIn(Proxy), Custom(t.out)])[l]
  {
    BucketCount(tunnels, l, t);
    SortSorts(Bucket(tunnels, l), TunnelPriority);
  }

  lemma IndexedSorted(index: LabelIndex, tunnels: seq<Tunnel>, l: Label)
    requires Indexed(index, tunnels) && l in index
    ensures index[l] != []
    ensures forall i, j :: 0 <= i < j < |index[l]| ==> index[l][i].priority <= index[l][j].priority
  {
    SortSorts(Bucket(tunnels, l), TunnelPriority);
    assert |multiset(index[l])| == |multiset(Bucket(tunnels, l))|;
    forall i, j | 0 <= i < j < |index[l]|
      ensures index[l][i].priority <= index[l][j].priority
    {
      assert TunnelPriority(index[l][i]) <= TunnelPriority(index[l][j]);
    }
  }

  lemma IndexedCarriers(index: LabelIndex, tunnels: seq<Tunnel>)
    requires Indexed(index, tunnels)
    ensures ListsCarriers(index, tunnels)
  {
    forall l, t
      ensures (l in index && t in index[l])
         <==> t in tunnels && (l in t.labels || l == BuiltIn(Proxy) || l == Custom(t.out))
    {
      IndexedEntry(index, tunnels, l, t);
    }
    forall l | l in index
      ensures index[l] != []
    {
      IndexedSorted(index, tunnels, l);
    }
  }

  lemma IndexedAsOften(index: LabelIndex, tunnels: seq<Tunnel>)
    requires Indexed(index, tunnels)
    ensures ListsAsOften(index, tunnels)
  {
    forall l, t | l in index && multiset(tunnels)[t] == 1
      ensures multiset(index[l])[t] == multiset(t.labels + [BuiltIn(Proxy), Custom(t.out)])[l]
    {
      IndexedCount(index, tunnels, l, t);
    }
  }

  lemma IndexedByPriority(index: LabelIndex, tunnels: seq<Tunnel>)
    requires Indexed(index, tunnels)
    ensures ListsByPriority(index)
  {
    forall l, i, j | l in index && 0 <= i < j < |index[l]|
      ensures index[l][i].priority <= index[l][j].priority
    {
      IndexedSorted(index, tunnels, l);
    }
  }

  function Entry(index: LabelIndex, l: Label): seq<Tunnel> {
    if l in index then index[l] else []
  }

  /** `index'` is `index` with `t` pushed once for every occurrence in `labels`. */
  ghost predicate Pushed(index: LabelIndex, index': LabelIndex, t: Tunnel, labels: seq<Label>) {
    forall l {:trigger Repeated(t, labels, l)} {:trigger l in index'} ::
      && Entry(index', l) == Entry(index, l) + Repeated(t, labels, l)
      && (l in index' <==> l in index || Repeated(t, labels, l) != [])
  }

  lemma PushOne(index: LabelIndex, index': LabelIndex, t: Tunnel, labels: seq<Label>, x: Label)
    requires Pushed(index, index', t, labels)
    ensures Pushed(index, index'[x := Entry(index', x) + [t]], t, labels + [x])
  {
    var next := index'[x := Entry(index', x) + [t]];
    forall l
      ensures Entry(next, l) == Entry(index, l) + Repeated(t, labels + [x], l)
      ensures l in next <==> l in index || Repeated(t, labels + [x], l) != []
    {
      assert (labels + [x])[..|labels|] == labels;
      assert Repeated(t, labels + [x], l) == if x == l then Repeated(t, labels, l) + [t] else Repeated(t, labels, l);
      assert Entry(index', l) == Entry(index, l) + Repeated(t, labels, l);
    }
  }

  lemma PushedAll(index: LabelIndex, index': LabelIndex, tunnels: seq<Tunnel>, t: Tunnel)
    requires Buckets(index, tunnels) && Pushed(index, index', t, Carried(t))
    ensures Buckets(index', tunnels + [t])
  {
  }

  /** The inner loop: push one tunnel onto the bucket of each label it carries. */
  method PushTunnel(index: LabelIndex, ghost tunnels: seq<Tunnel>, tunnel: Tunnel) returns (index': LabelIndex)
    requires Buckets(index, tunnels)
    ensures Buckets(index', tunnels + [tunnel])
  {
    index' := index;
    var labels := Carried(tunnel);
    for j := 0 to |labels|
      invariant Pushed(index, index', tunnel, labels[..j])
    {
      assert labels[..j + 1] == labels[..j] + [labels[j]];
      PushOne(index, index', tunnel, labels[..j], labels[j]);
      index' := index'[labels[j] := Entry(index', labels[j]) + [tunnel]];
    }
    assert labels[..|labels|] == labels;
    PushedAll(index, index', tunnels, tunnel);
  }

  /** The last loop: sort every bucket by priority. */
  method SortBuckets(index: LabelIndex) returns (sorted: LabelIndex)
    ensures sorted.Keys == index.Keys
    ensures forall l :: l in index ==> sorted[l] == SortByKey(index[l], TunnelPriority)
  {
    sorted := index;
    var rest := index.Keys;
    while rest != {}
      invariant rest <= index.Keys == sorted.Keys
      invariant forall l :: l in index ==>
        sorted[l] == if l in rest then index[l] else SortByKey(index[l], TunnelPriority)
      decreases rest
    {
      var l :| l in rest;
      sorted := sorted[l := SortByKey(sorted[l], TunnelPriority)];
      rest := rest - {l};
    }
  }

  /** Rebuilding the index from the tunnels, in the order the hash map gives them. */
  method UpdateLabelToTunnelsMap(tunnels: seq<Tunnel>) returns (index: LabelIndex)
    ensures Indexed(index, tunnels)
    ensures ListsCarriers(index, tunnels) && ListsAsOften(index, tunnels) && ListsByPriority(index)
  {
    index := map[];
    for i := 0 to |tunnels|
      invariant Buckets(index, tunnels[..i])
    {
      index := PushTunnel(index, tunnels[..i], tunnels[i]);
      assert tunnels[..i] + [tunnels[i]] == tunnels[..i + 1];
    }
    assert tunnels[..|tunnels|] == tunnels;
    index := SortBuckets(index);
    IndexedCarriers(index, tunnels);
    IndexedAsOften(index, tunnels);
    IndexedByPriority(index, tunnels);
  }

  // ---- Selection from one bucket ----

  function ActiveOf(tunnels: seq<Tunnel>, active: set<TunnelId>): seq<Tunnel> {
    if tunnels == [] then []
    else if tunnels[0].id in active then [tunnels[0]] + ActiveOf(tunnels[1..], active)
    else ActiveOf(tunnels[1..], active)
  }

  function TakePriority(tunnels: seq<Tunnel>, priority: int): seq<Tunnel> {
    if tunnels == [] || tunnels[0].priority != priority then []
    else [tunnels[0]] + TakePriority(tunnels[1..], priority)
  }

  /** The active tunnels of top priority, in order. */
  function Tops(tunnels: seq<Tunnel>, active: set<TunnelId>): seq<Tunnel> {
    var alive := ActiveOf(tunnels, active);
    if alive == [] then [] else TakePriority(alive, alive[0].priority)
  }

  function SelectFromTunnels(tunnels: seq<Tunnel>, n: nat, active: set<TunnelId>): Option<Tunnel> {
    var tops := Tops(tunnels, active);
    if tops == [] then None else Some(tops[n % |tops|])
  }

  function FromIndex(index: LabelIndex, l: Label, n: nat, active: set<TunnelId>): Option<Tunnel> {
    if l in index then SelectFromTunnels(index[l], n, active) else None
  }

  lemma {:induction false} ActiveMembers(tunnels: seq<Tunnel>, active: set<TunnelId>)
    ensures forall t :: t in ActiveOf(tunnels, active) <==> t in tunnels && t.id in active
  {
    if tunnels != [] {
      ActiveMembers(tunnels[1..], active);
      assert forall t :: t in tunnels <==> t == tunnels[0] || t in tunnels[1..];
    }
  }

  lemma {:induction false} ActiveSorted(tunnels: seq<Tunnel>, active: set<TunnelId>)
    requires SortedByKey(tunnels, TunnelPriority)
    ensures SortedByKey(ActiveOf(tunnels, active), TunnelPriority)
  {
    if tunnels != [] {
      assert SortedByKey(tunnels[1..], TunnelPriority);
      ActiveSorted(tunnels[1..], active);
      ActiveMembers(tunnels[1..], active);
      var rest := ActiveOf(tunnels[1..], active);
      forall j | 0 <= j < |rest|
        ensures TunnelPriority(tunnels[0]) <= TunnelPriority(rest[j])
      {
        assert rest[j] in tunnels[1..];
        var k :| 0 <= k < |tunnels[1..]| && tunnels[1..][k] == rest[j];
        assert tunnels[k + 1] == rest[j];
      }
    }
  }

  /** In a sorted list the leading run of the first priority is everything of that priority. */
  lemma {:induction false} TakeIsWithKey(tunnels: seq<Tunnel>, priority: int)
    requires SortedByKey(tunnels, TunnelPriority)
    requires forall t :: t in tunnels ==> priority <= t.priority
    ensures TakePriority(tunnels, priority) == WithKey(tunnels, TunnelPriority, priority)
  {
    if tunnels != [] {
      var rest := tunnels[1..];
      assert forall t :: t in rest ==> t in tunnels;
      assert tunnels[0] in tunnels;
      if tunnels[0].priority == priority {
        assert SortedByKey(rest, TunnelPriority);
        TakeIsWithKey(rest, priority);
      } else {
        forall i | 0 <= i < |tunnels|
          ensures TunnelPriority(tunnels[i]) != priority
        {
          assert i == 0 || TunnelPriority(tunnels[0]) <= TunnelPriority(tunnels[i]);
        }
        NoneWithKey(tunnels, priority);
      }
    }
  }

  lemma {:induction false} NoneWithKey(tunnels: seq<Tunnel>, k: int)
    requires forall i :: 0 <= i < |tunnels| ==> TunnelPriority(tunnels[i]) != k
    ensures WithKey(tunnels, TunnelPriority, k) == []
  {
    if tunnels != [] {
      NoneWithKey(tunnels[1..], k);
    }
  }

  /** An active tunnel in force that lists the label, or for which it is PROXY or the id of its OUT. */
  ghost predicate Carrier(t: Tunnel, tunnels: seq<Tunnel>, l: Label, active: set<TunnelId>) {
    t in tunnels && (l in t.labels || l == BuiltIn(Proxy) || l == Custom(t.out)) && t.id in active
  }

  /** An active carrier of least priority value. */
  ghost predicate BestCarrier(t: Tunnel, tunnels: seq<Tunnel>, l: Label, active: set<TunnelId>) {
    Carrier(t, tunnels, l, active) && forall u :: Carrier(u, tunnels, l, active) ==> t.priority <= u.priority
  }

  ghost predicate HasCarrier(tunnels: seq<Tunnel>, l: Label, active: set<TunnelId>) {
    exists t :: Carrier(t, tunnels, l, active)
  }

  ghost predicate LeastActive(t: Tunnel, tunnels: seq<Tunnel>, active: set<TunnelId>) {
    && t in tunnels && t.id in active
    && forall u :: u in tunnels && u.id in active ==> t.priority <= u.priority
  }

  lemma TopsOfSorted(sorted: seq<Tunnel>, active: set<TunnelId>)
    requires SortedByKey(sorted, TunnelPriority)
    ensures forall t :: t in Tops(sorted, active) <==> LeastActive(t, sorted, active)
    ensures Tops(sorted, active) != [] <==> exists t :: t in sorted && t.id in active
  {
    ActiveSorted(sorted, active);
    ActiveMembers(sorted, active);
    var alive := ActiveOf(sorted, active);
    if alive != [] {
      forall t | t in alive
        ensures alive[0].priority <= t.priority
      {
        var k :| 0 <= k < |alive| && alive[k] == t;
        assert k == 0 || TunnelPriority(alive[0]) <= TunnelPriority(alive[k]);
      }
      assert alive[0] in alive;
      TakeIsWithKey(alive, alive[0].priority);
      WithKeyMember(alive, TunnelPriority, alive[0].priority);
    }
  }

  lemma SortedMembers(bucket: seq<Tunnel>)
    ensures forall t :: t in SortByKey(bucket, TunnelPriority) <==> t in bucket
  {
    SortSorts(bucket, TunnelPriority);
    forall t
      ensures t in SortByKey(bucket, TunnelPriority) <==> t in bucket
    {
      assert t in multiset(SortByKey(bucket, TunnelPriority)) <==> t in multiset(bucket);
    }
  }

  /** The top list under a label is exactly the best carriers, each as often as it carries the label. */
  lemma TopsAreBest(index: LabelIndex, tunnels: seq<Tunnel>, l: Label, active: set<TunnelId>)
    requires Indexed(index, tunnels)
    ensures l in index ==> forall t :: t in Tops(index[l], active) <==> BestCarrier(t, tunnels, l, active)
    ensures (l in index && Tops(index[l], active) != []) <==> HasCarrier(tunnels, l, active)
  {
    var bucket := Bucket(tunnels, l);
    BucketMembers(tunnels, l);
    SortedMembers(bucket);
    SortSorts(bucket, TunnelPriority);
    TopsOfSorted(SortByKey(bucket, TunnelPriority), active);
    var sorted := SortByKey(bucket, TunnelPriority);
    forall t
      ensures (t in sorted && t.id in active) <==> Carrier(t, tunnels, l, active)
    {
      CarriedMeans(t, l);
    }
    forall t
      ensures LeastActive(t, sorted, active) <==> BestCarrier(t, tunnels, l, active)
    {
    }
  }

  lemma FromIndexIsBest(index: LabelIndex, tunnels: seq<Tunnel>, l: Label, n: nat, active: set<TunnelId>)
    requires Indexed(index, tunnels)
    ensures FromIndex(index, l, n, active).Some? <==> HasCarrier(tunnels, l, active)
    ensures FromIndex(index, l, n, active).Some? ==>
              BestCarrier(FromIndex(index, l, n, active).value, tunnels, l, active)
  {
    TopsAreBest(index, tunnels, l, active);
    if l in index && Tops(index[l], active) != [] {
      var tops := Tops(index[l], active);
      assert tops[n % |tops|] in tops;
    }
  }

  // ---- Selection over label groups ----

  predicate IsProxyOrAny(l: Label) {
    l == BuiltIn(Proxy) || l == BuiltIn(Any)
  }

  /** A label that ends the scan where it stands: DIRECT, or a custom label with an active tunnel. */
  predicate Decisive(l: Label, index: LabelIndex, active: set<TunnelId>) {
    l == BuiltIn(BuiltInLabel.Direct) || (l.Custom? && FromIndex(index, l, 0, active).Some?)
  }

  function FirstDecisive(labels: seq<Tagged>, index: LabelIndex, active: set<TunnelId>): Option<Tagged> {
    if labels == [] then None
    else
      var front := FirstDecisive(labels[..|labels| - 1], index, active);
      if front.Some? then front
      else if Decisive(labels[|labels| - 1].target, index, active) then Some(labels[|labels| - 1])
      else None
  }

  function FirstProxy(labels: seq<Tagged>): Option<Tagged> {
    if labels == [] then None
    else
      var front := FirstProxy(labels[..|labels| - 1]);
      if front.Some? then front
      else if IsProxyOrAny(labels[|labels| - 1].target) then Some(labels[|labels| - 1])
      else None
  }

  function LastAny(labels: seq<Tagged>): Option<Tagged> {
    if labels == [] then None
    else if labels[|labels| - 1].target == BuiltIn(Any) then Some(labels[|labels| - 1])
    else LastAny(labels[..|labels| - 1])
  }

  /** What one group settles on, if anything. */
  function GroupChoice(labels: seq<Tagged>, index: LabelIndex, n: nat, active: set<TunnelId>): Option<Selected> {
    var decisive := FirstDecisive(labels, index, active);
    var proxy := FirstProxy(labels);
    var tunnel := FromIndex(index, BuiltIn(Proxy), n, active);
    if decisive.Some? then
      if decisive.value.target.BuiltIn? then Some(ViaDirect(decisive.value.tag))
      else
        var custom := FromIndex(index, decisive.value.target, n, active);
        if custom.Some? then Some(ViaTunnel(custom.value, decisive.value.tag)) else None
    else if proxy.Some? && tunnel.Some? then Some(ViaTunnel(tunnel.value, proxy.value.tag))
    else None
  }

  function FirstChoice(groups: seq<seq<Tagged>>, index: LabelIndex, n: nat, active: set<TunnelId>): Option<Selected> {
    if groups == [] then None
    else
      var front := FirstChoice(groups[..|groups| - 1], index, n, active);
      if front.Some? then front else GroupChoice(groups[|groups| - 1], index, n, active)
  }

  /** The first group that settles decides; if none does, the last ANY goes direct. */
  function Select(groups: seq<seq<Tagged>>, index: LabelIndex, n: nat, active: set<TunnelId>): Option<Selected> {
    var choice := FirstChoice(groups, index, n, active);
    var any := LastAny(Flatten(groups));
    if choice.Some? then choice
    else if any.Some? then Some(ViaDirect(any.value.tag))
    else None
  }

  lemma DecisiveAnyCounter(index: LabelIndex, l: Label, n: nat, active: set<TunnelId>)
    ensures FromIndex(index, l, n, active).Some? <==> FromIndex(index, l, 0, active).Some?
  {
  }

  lemma {:induction false} ChosenEarlier(
      groups: seq<seq<Tagged>>, i: nat, index: LabelIndex, n: nat, active: set<TunnelId>)
    requires i < |groups|
    requires FirstChoice(groups[..i], index, n, active).None?
    requires GroupChoice(groups[i], index, n, active).Some?
    ensures FirstChoice(groups, index, n, active) == GroupChoice(groups[i], index, n, active)
    decreases |groups|
  {
    var last := |groups| - 1;
    if i < last {
      assert groups[..last][..i] == groups[..i];
      ChosenEarlier(groups[..last], i, index, n, active);
    }
  }

  lemma {:induction false} DecidedEarlier(labels: seq<Tagged>, j: nat, index: LabelIndex, active: set<TunnelId>)
    requires j < |labels|
    requires FirstDecisive(labels[..j], index, active).None?
    requires Decisive(labels[j].target, index, active)
    ensures FirstDecisive(labels, index, active) == Some(labels[j])
    decreases |labels|
  {
    var last := |labels| - 1;
    if j < last {
      assert labels[..last][..j] == labels[..j];
      DecidedEarlier(labels[..last], j, index, active);
    }
  }

  lemma {:induction false} LastAnyConcat(a: seq<Tagged>, b: seq<Tagged>)
    ensures LastAny(a + b) == if LastAny(b).Some? then LastAny(b) else LastAny(a)
  {
    if b == [] {
      assert a + b == a;
    } else {
      assert (a + b)[..|a + b| - 1] == a + b[..|b| - 1];
      LastAnyConcat(a, b[..|b| - 1]);
    }
  }

  lemma FlattenSnoc(groups: seq<seq<Tagged>>, g: seq<Tagged>)
    ensures Flatten(groups + [g]) == Flatten(groups) + g
  {
    FlattenConcat(groups, [g]);
    assert Flatten([g]) == g;
  }

  function TagOf(l: Option<Tagged>): Option<Option<string>> {
    if l.Some? then Some(l.value.tag) else None
  }

  /** The inner loop over one group's labels, with its early returns. */
  method ScanGroup(
      labels: seq<Tagged>, index: LabelIndex, n: nat, active: set<TunnelId>, directTag: Option<Option<string>>)
    returns (selected: Option<Selected>, proxyTag: Option<Option<string>>, directTag': Option<Option<string>>)
    ensures selected.Some? <==> FirstDecisive(labels, index, active).Some?
    ensures selected.Some? ==> selected == GroupChoice(labels, index, n, active)
    ensures selected.None? ==> proxyTag == TagOf(FirstProxy(labels))
    ensures selected.None? ==> directTag' == if LastAny(labels).Some? then TagOf(LastAny(labels)) else directTag
  {
    proxyTag, directTag' := None, directTag;
    for j := 0 to |labels|
      invariant FirstDecisive(labels[..j], index, active).None?
      invariant proxyTag == TagOf(FirstProxy(labels[..j]))
      invariant directTag' == if LastAny(labels[..j]).Some? then TagOf(LastAny(labels[..j])) else directTag
    {
      var l, tag := labels[j].target, labels[j].tag;
      assert labels[..j + 1][..j] == labels[..j];
      match l {
        case BuiltIn(Direct) =>
          DecidedEarlier(labels, j, index, active);
          return Some(ViaDirect(tag)), proxyTag, directTag';
        case BuiltIn(Proxy) =>
          if proxyTag.None? {
            proxyTag := Some(tag);
          }
        case BuiltIn(Any) =>
          if proxyTag.None? {
            proxyTag := Some(tag);
          }
          directTag' := Some(tag);
        case Custom(_) =>
          DecisiveAnyCounter(index, l, n, active);
          if l in index {
            var tunnel := SelectFromTunnels(index[l], n, active);
            if tunnel.Some? {
              DecidedEarlier(labels, j, index, active);
              return Some(ViaTunnel(tunnel.value, tag)), proxyTag, directTag';
            }
          }
      }
    }
    assert labels[..|labels|] == labels;
    return None, proxyTag, directTag';
  }

  /** The outer loop of the tunnel manager's selection. */
  method SelectLoop(groups: seq<seq<Tagged>>, index: LabelIndex, n: nat, active: set<TunnelId>)
    returns (selected: Option<Selected>)
    ensures selected == Select(groups, index, n, active)
  {
    var directTag: Option<Option<string>> := None;
    for i := 0 to |groups|
      invariant FirstChoice(groups[..i], index, n, active).None?
      invariant directTag == TagOf(LastAny(Flatten(groups[..i])))
    {
      var labels := groups[i];
      assert groups[..i + 1] == groups[..i] + [labels];
      assert groups[..i + 1][..i] == groups[..i];
      FlattenSnoc(groups[..i], labels);
      LastAnyConcat(Flatten(groups[..i]), labels);
      var proxyTag: Option<Option<string>>;
      selected, proxyTag, directTag := ScanGroup(labels, index, n, active, directTag);
      if selected.Some? {
        ChosenEarlier(groups, i, index, n, active);
        return;
      }
      var proxyTunnel := FromIndex(index, BuiltIn(Proxy), n, active);
      if proxyTag.Some? && proxyTunnel.Some? {
        ChosenEarlier(groups, i, index, n, active);
        return Some(ViaTunnel(proxyTunnel.value, proxyTag.value));
      }
    }
    assert groups[..|groups|] == groups;
    if directTag.Some? {
      return Some(ViaDirect(directTag.value));
    }
    return None;
  }
}
