/** Rotation among the top-priority tunnels over consecutive selections. */
module Rotation {
  import opened Prelude
  import opened Ids
  import opened Seqs
  import opened Rules
  import opened Selection

  /** How many of the counter values start .. start + n - 1 land on place `r` of `k`. */
  function Uses(k: nat, start: nat, n: nat, r: nat): nat
    requires k > 0
  {
    if n == 0 then 0
    else Uses(k, start, n - 1, r) + if (start + n - 1) % k == r then 1 else 0
  }

  lemma {:induction false} UsesSplit(k: nat, start: nat, a: nat, b: nat, r: nat)
    requires k > 0
    ensures Uses(k, start, a + b, r) == Uses(k, start, a, r) + Uses(k, start + a, b, r)
    decreases b
  {
    if b > 0 {
      UsesSplit(k, start, a, b - 1, r);
      assert start + (a + b) - 1 == (start + a) + b - 1;
    }
  }

  lemma {:induction false} FirstTurn(k: nat, n: nat, r: nat)
    requires r < k && n <= k
    ensures Uses(k, 0, n, r) == if r < n then 1 else 0
  {
    if n > 0 {
      FirstTurn(k, n - 1, r);
      assert (0 + n - 1) % k == n - 1 by { SmallModulo(n - 1, k); }
    }
  }

  lemma SmallModulo(x: nat, k: nat)
    requires x < k
    ensures x % k == x
  {
  }

  lemma AddPeriod(x: nat, k: nat)
    requires k > 0
    ensures (x + k) % k == x % k
  {
    var q := x / k;
    assert x == q * k + x % k;
    assert x + k == (q + 1) * k + x % k;
    UniqueRemainder(x + k, k, q + 1, x % k);
  }

  lemma AtLeastOnce(d: int, k: nat)
    ensures d >= 1 ==> d * k >= k
    ensures d <= -1 ==> d * k + k <= 0
  {
  }

  lemma UniqueRemainder(x: nat, k: nat, q: int, m: nat)
    requires k > 0 && x == q * k + m && m < k
    ensures x % k == m
  {
    var d := x / k - q;
    assert x == (x / k) * k + x % k;
    assert d * k == m - x % k;
    AtLeastOnce(d, k);
  }

  /** Any k counter values in a row hit each place once. */
  lemma {:induction false} OneTurn(k: nat, start: nat, r: nat)
    requires r < k
    ensures Uses(k, start, k, r) == 1
    decreases start
  {
    if start == 0 {
      FirstTurn(k, k, r);
    } else {
      OneTurn(k, start - 1, r);
      UsesSplit(k, start - 1, 1, k, r);
      UsesSplit(k, start - 1, k, 1, r);
      AddPeriod(start - 1, k);
      assert Uses(k, start - 1, 1, r) == Uses(k, start - 1, 0, r) + if (start - 1) % k == r then 1 else 0;
      assert Uses(k, start - 1 + k, 1, r) ==
             Uses(k, start - 1 + k, 0, r) + if (start - 1 + k) % k == r then 1 else 0;
    }
  }

  /** Whole turns over `k` places in `n` selections. */
  function Turns(n: nat, k: nat): nat
    requires k > 0
  {
    if n < k then 0 else 1 + Turns(n - k, k)
  }

  lemma {:induction false} PlacesFair(k: nat, start: nat, n: nat, r: nat)
    requires r < k
    ensures Turns(n, k) <= Uses(k, start, n, r) <= Turns(n, k) + 1
    decreases n
  {
    if n < k {
      UsesSplit(k, start, n, k - n, r);
      OneTurn(k, start, r);
    } else {
      PlacesFair(k, start, n - k, r);
      UsesSplit(k, start, n - k, k, r);
      OneTurn(k, start + (n - k), r);
    }
  }

  // ---- Tunnels ----

  /** How many of n consecutive selections through `l` return `t`. */
  function TimesSelected(index: LabelIndex, l: Label, active: set<TunnelId>, start: nat, n: nat, t: Tunnel): nat {
    if n == 0 then 0
    else
      TimesSelected(index, l, active, start, n - 1, t)
      + if FromIndex(index, l, start + n - 1, active) == Some(t) then 1 else 0
  }

  predicate Distinct<T(==)>(s: seq<T>) {
    forall i, j :: 0 <= i < j < |s| ==> s[i] != s[j]
  }

  lemma {:induction false} DistinctCounts(s: seq<Tunnel>)
    ensures Distinct(s) <==> forall x :: multiset(s)[x] <= 1
  {
    if s != [] {
      var last := |s| - 1;
      DistinctCounts(s[..last]);
      assert s == s[..last] + [s[last]];
      if Distinct(s) {
        assert s[last] !in s[..last];
      } else if Distinct(s[..last]) {
        var i, j :| 0 <= i < j < |s| && s[i] == s[j];
        assert s[..last][i] == s[i];
        assert multiset(s)[s[last]] > 1;
      } else {
        var x :| multiset(s[..last])[x] > 1;
        assert multiset(s)[x] > 1;
      }
    }
  }

  lemma {:induction false} ActiveCounts(tunnels: seq<Tunnel>, active: set<TunnelId>)
    ensures multiset(ActiveOf(tunnels, active)) <= multiset(tunnels)
  {
    if tunnels != [] {
      ActiveCounts(tunnels[1..], active);
      assert tunnels == [tunnels[0]] + tunnels[1..];
    }
  }

  lemma {:induction false} TakeCounts(tunnels: seq<Tunnel>, priority: int)
    ensures multiset(TakePriority(tunnels, priority)) <= multiset(tunnels)
  {
    if tunnels != [] {
      TakeCounts(tunnels[1..], priority);
      assert tunnels == [tunnels[0]] + tunnels[1..];
    }
  }

  lemma {:induction false} BucketCounts(tunnels: seq<Tunnel>, l: Label, x: Tunnel)
    requires Distinct(tunnels)
    ensures multiset(Bucket(tunnels, l))[x] <= if x in tunnels then |Repeated(x, Carried(x), l)| else 0
  {
    if tunnels != [] {
      var last := |tunnels| - 1;
      BucketCounts(tunnels[..last], l, x);
      assert tunnels == tunnels[..last] + [tunnels[last]];
      RepeatedMembers(tunnels[last], Carried(tunnels[last]), l);
      if x == tunnels[last] {
        assert x !in tunnels[..last];
        CountAtMost(Repeated(x, Carried(x), l), x);
      } else {
        assert x !in Repeated(tunnels[last], Carried(tunnels[last]), l);
      }
    }
  }

  lemma {:induction false} CountAtMost(s: seq<Tunnel>, x: Tunnel)
    ensures multiset(s)[x] <= |s|
  {
  }

  /** No tunnel in force lists the label twice (PROXY and its OUT's id count as listed). */
  ghost predicate ListedOnce(tunnels: seq<Tunnel>, l: Label) {
    forall t :: t in tunnels ==> multiset(t.labels + [BuiltIn(Proxy), Custom(t.out)])[l] <= 1
  }

  /** A tunnel is among the top ones under a label at most as often as it lists it. */
  lemma TopsCount(index: LabelIndex, tunnels: seq<Tunnel>, l: Label, active: set<TunnelId>, x: Tunnel)
    requires Indexed(index, tunnels) && Distinct(tunnels) && l in index
    ensures multiset(Tops(index[l], active))[x] <= if x in tunnels then |Repeated(x, Carried(x), l)| else 0
  {
    var alive := ActiveOf(index[l], active);
    SortSorts(Bucket(tunnels, l), TunnelPriority);
    ActiveCounts(index[l], active);
    if alive != [] {
      TakeCounts(alive, alive[0].priority);
    }
    BucketCounts(tunnels, l, x);
    assert multiset(Tops(index[l], active))[x] <= multiset(index[l])[x];
  }

  lemma TopsDistinct(index: LabelIndex, tunnels: seq<Tunnel>, l: Label, active: set<TunnelId>)
    requires Indexed(index, tunnels) && Distinct(tunnels) && ListedOnce(tunnels, l) && l in index
    ensures Distinct(Tops(index[l], active))
  {
    var tops := Tops(index[l], active);
    forall x
      ensures multiset(tops)[x] <= 1
    {
      TopsCount(index, tunnels, l, active, x);
      RepeatedCount(x, Carried(x), l, x);
    }
    DistinctCounts(tops);
  }

  ghost predicate OnlyAt(s: seq<Tunnel>, t: Tunnel, r: nat) {
    r < |s| && s[r] == t && forall i :: 0 <= i < |s| && s[i] == t ==> i == r
  }

  lemma PairCount(s: seq<Tunnel>, i: nat, j: nat)
    requires i < j < |s| && s[i] == s[j]
    ensures multiset(s)[s[i]] >= 2
  {
    assert s == s[..i] + [s[i]] + s[i + 1..j] + [s[j]] + s[j + 1..];
  }

  lemma OnceIsOnlyAt(s: seq<Tunnel>, t: Tunnel) returns (r: nat)
    requires t in s && multiset(s)[t] <= 1
    ensures OnlyAt(s, t, r)
  {
    r :| r < |s| && s[r] == t;
    forall i | 0 <= i < |s| && s[i] == t
      ensures i == r
    {
      if i < r {
        PairCount(s, i, r);
      } else if r < i {
        PairCount(s, r, i);
      }
    }
  }

  /** A tunnel at one place only is selected as often as the counter lands there. */
  lemma {:induction false} SelectedIsUses(
      index: LabelIndex, l: Label, active: set<TunnelId>, start: nat, n: nat, t: Tunnel, r: nat)
    requires l in index && OnlyAt(Tops(index[l], active), t, r)
    ensures TimesSelected(index, l, active, start, n, t) == Uses(|Tops(index[l], active)|, start, n, r)
  {
    if n > 0 {
      SelectedIsUses(index, l, active, start, n - 1, t, r);
      var tops := Tops(index[l], active);
      var at := (start + n - 1) % |tops|;
      assert tops[at] == t <==> at == r;
    }
  }

  /** The tunnel lists the label once; PROXY and the id of its OUT count as listed. */
  predicate ListsOnce(t: Tunnel, l: Label) {
    multiset(t.labels + [BuiltIn(Proxy), Custom(t.out)])[l] == 1
  }

  lemma PlaceOf(index: LabelIndex, tunnels: seq<Tunnel>, l: Label, active: set<TunnelId>, t: Tunnel) returns (r: nat)
    requires Indexed(index, tunnels) && Distinct(tunnels) && BestCarrier(t, tunnels, l, active) && ListsOnce(t, l)
    ensures l in index && OnlyAt(Tops(index[l], active), t, r)
  {
    TopsAreBest(index, tunnels, l, active);
    TopsCount(index, tunnels, l, active, t);
    RepeatedCount(t, Carried(t), l, t);
    r := OnceIsOnlyAt(Tops(index[l], active), t);
  }

  /** Fairness: over n consecutive selections the use counts of two top-priority active carriers that
      list the label once differ by at most one, and k selections over k places use each exactly once. */
  lemma RotationFair(
      index: LabelIndex, tunnels: seq<Tunnel>, l: Label, active: set<TunnelId>, start: nat, n: nat,
      t: Tunnel, u: Tunnel)
    requires Indexed(index, tunnels) && Distinct(tunnels) && ListsOnce(t, l) && ListsOnce(u, l)
    requires BestCarrier(t, tunnels, l, active) && BestCarrier(u, tunnels, l, active)
    ensures l in index && Balanced(index, l, active, start, n, t, u)
    ensures n == |Tops(index[l], active)| ==> TimesSelected(index, l, active, start, n, t) == 1
  {
    var r := PlaceOf(index, tunnels, l, active, t);
    var s := PlaceOf(index, tunnels, l, active, u);
    var k := |Tops(index[l], active)|;
    SelectedIsUses(index, l, active, start, n, t, r);
    SelectedIsUses(index, l, active, start, n, u, s);
    PlacesFair(k, start, n, r);
    PlacesFair(k, start, n, s);
    OneTurn(k, start, r);
  }

  ghost predicate Balanced(
      index: LabelIndex, l: Label, active: set<TunnelId>, start: nat, n: nat, t: Tunnel, u: Tunnel)
  {
    -1 <= TimesSelected(index, l, active, start, n, t) - TimesSelected(index, l, active, start, n, u) <= 1
  }

  // ---- Tunnels that list a label twice ----

  predicate TwiceAt(s: seq<Tunnel>, t: Tunnel, r: nat) {
    r + 1 < |s| && s[r] == t && s[r + 1] == t
  }

  /** Two copies of the tunnel stand side by side. */
  ghost predicate Twice(s: seq<Tunnel>, t: Tunnel) {
    exists r: nat :: TwiceAt(s, t, r)
  }

  lemma TwiceInside(a: seq<Tunnel>, b: seq<Tunnel>, t: Tunnel)
    ensures Twice(a, t) || Twice(b, t) ==> Twice(a + b, t)
  {
    if r: nat :| TwiceAt(a, t, r) {
      assert TwiceAt(a + b, t, r);
    }
    if r: nat :| TwiceAt(b, t, r) {
      assert TwiceAt(a + b, t, |a| + r);
    }
  }

  /** Copies side by side at the front, or further on. */
  lemma TwiceSplit(s: seq<Tunnel>, t: Tunnel)
    requires s != []
    ensures Twice(s, t) <==> TwiceAt(s, t, 0) || Twice(s[1..], t)
  {
    if r: nat :| TwiceAt(s, t, r) {
      assert r > 0 ==> TwiceAt(s[1..], t, r - 1);
    }
    if r: nat :| TwiceAt(s[1..], t, r) {
      assert TwiceAt(s, t, r + 1);
    }
  }

  lemma {:induction false} BucketTwice(tunnels: seq<Tunnel>, l: Label, t: Tunnel)
    requires t in tunnels && |Repeated(t, Carried(t), l)| >= 2
    ensures Twice(Bucket(tunnels, l), t)
  {
    var front, last := tunnels[..|tunnels| - 1], tunnels[|tunnels| - 1];
    assert tunnels == front + [last];
    var copies := Repeated(last, Carried(last), l);
    TwiceInside(Bucket(front, l), copies, t);
    if last == t {
      RepeatedMembers(t, Carried(t), l);
      assert copies[0] in copies && copies[1] in copies;
      assert TwiceAt(copies, t, 0);
    } else {
      BucketTwice(front, l, t);
    }
  }

  lemma {:induction false} WithKeyTwice(s: seq<Tunnel>, k: int, t: Tunnel)
    requires Twice(s, t) && TunnelPriority(t) == k
    ensures Twice(WithKey(s, TunnelPriority, k), t)
  {
    TwiceSplit(s, t);
    var rest := WithKey(s[1..], TunnelPriority, k);
    if TwiceAt(s, t, 0) {
      assert s[1..][0] == t;
      assert TwiceAt([t] + rest, t, 0);
    } else {
      WithKeyTwice(s[1..], k, t);
      TwiceInside([s[0]], rest, t);
    }
  }

  lemma {:induction false} ActiveTwice(s: seq<Tunnel>, active: set<TunnelId>, t: Tunnel)
    requires Twice(s, t) && t.id in active
    ensures Twice(ActiveOf(s, active), t)
  {
    TwiceSplit(s, t);
    var rest := ActiveOf(s[1..], active);
    if TwiceAt(s, t, 0) {
      assert s[1..][0] == t;
      assert TwiceAt([t] + rest, t, 0);
    } else {
      ActiveTwice(s[1..], active, t);
      TwiceInside([s[0]], rest, t);
    }
  }

  lemma {:induction false} ActiveWithKey(s: seq<Tunnel>, active: set<TunnelId>, k: int)
    ensures WithKey(ActiveOf(s, active), TunnelPriority, k) == ActiveOf(WithKey(s, TunnelPriority, k), active)
  {
    if s != [] {
      ActiveWithKey(s[1..], active, k);
    }
  }

  /** The top tunnels in the order the hash map and their labels give them. */
  lemma TopsOfBucket(index: LabelIndex, tunnels: seq<Tunnel>, l: Label, active: set<TunnelId>)
    requires Indexed(index, tunnels) && l in index && Tops(index[l], active) != []
    ensures var tops := Tops(index[l], active);
            tops == ActiveOf(WithKey(Bucket(tunnels, l), TunnelPriority, tops[0].priority), active)
  {
    var alive := ActiveOf(index[l], active);
    var p := alive[0].priority;
    SortSorts(Bucket(tunnels, l), TunnelPriority);
    SortIsStable(Bucket(tunnels, l), TunnelPriority, p);
    ActiveSorted(index[l], active);
    forall t | t in alive
      ensures p <= t.priority
    {
      var i :| 0 <= i < |alive| && alive[i] == t;
      assert i == 0 || TunnelPriority(alive[0]) <= TunnelPriority(alive[i]);
    }
    TakeIsWithKey(alive, p);
    ActiveWithKey(index[l], active, p);
  }

  lemma ListsTwice(t: Tunnel, l: Label)
    requires l in t.labels || l == BuiltIn(Proxy) || l == Custom(t.out)
    requires !ListsOnce(t, l)
    ensures |Repeated(t, Carried(t), l)| >= 2
  {
    CarriedMeans(t, l);
    RepeatedCount(t, Carried(t), l, t);
    assert l in multiset(Carried(t));
  }

  lemma BestIsTopPriority(index: LabelIndex, tunnels: seq<Tunnel>, l: Label, active: set<TunnelId>, t: Tunnel)
    requires Indexed(index, tunnels) && BestCarrier(t, tunnels, l, active)
    ensures l in index && Tops(index[l], active) != [] && Tops(index[l], active)[0].priority == t.priority
  {
    TopsAreBest(index, tunnels, l, active);
    assert Tops(index[l], active)[0] in Tops(index[l], active);
  }

  lemma TopsTwice(index: LabelIndex, tunnels: seq<Tunnel>, l: Label, active: set<TunnelId>, t: Tunnel)
    requires Indexed(index, tunnels) && BestCarrier(t, tunnels, l, active) && !ListsOnce(t, l)
    ensures l in index && Twice(Tops(index[l], active), t)
  {
    var bucket := Bucket(tunnels, l);
    ListsTwice(t, l);
    BucketTwice(tunnels, l, t);
    BestIsTopPriority(index, tunnels, l, active, t);
    TopsOfBucket(index, tunnels, l, active);
    WithKeyTwice(bucket, t.priority, t);
    ActiveTwice(WithKey(bucket, TunnelPriority, t.priority), active, t);
  }

  lemma SelectedAt(index: LabelIndex, l: Label, active: set<TunnelId>, start: nat, t: Tunnel)
    requires l in index && start < |Tops(index[l], active)| && Tops(index[l], active)[start] == t
    ensures FromIndex(index, l, start, active) == Some(t)
  {
    SmallModulo(start, |Tops(index[l], active)|);
  }

  /** Two selections in a row pick the tunnel that lists the label twice. */
  lemma TwiceInARow(index: LabelIndex, tunnels: seq<Tunnel>, l: Label, active: set<TunnelId>, t: Tunnel, u: Tunnel)
      returns (start: nat)
    requires Indexed(index, tunnels) && BestCarrier(t, tunnels, l, active) && !ListsOnce(t, l) && t != u
    ensures TimesSelected(index, l, active, start, 2, t) == 2 && TimesSelected(index, l, active, start, 2, u) == 0
  {
    TopsTwice(index, tunnels, l, active, t);
    var tops := Tops(index[l], active);
    start :| TwiceAt(tops, t, start);
    SelectedAt(index, l, active, start, t);
    SelectedAt(index, l, active, start + 1, t);
    TwoSelections(index, l, active, start, t);
    TwoSelections(index, l, active, start, u);
  }

  lemma TwoSelections(index: LabelIndex, l: Label, active: set<TunnelId>, start: nat, t: Tunnel)
    ensures TimesSelected(index, l, active, start, 2, t)
         == (if FromIndex(index, l, start, active) == Some(t) then 1 else 0)
            + (if FromIndex(index, l, start + 1, active) == Some(t) then 1 else 0)
  {
    var first := if FromIndex(index, l, start, active) == Some(t) then 1 else 0;
    assert TimesSelected(index, l, active, start, 1, t) == TimesSelected(index, l, active, start, 0, t) + first;
  }

  /** The counts of two top-priority active carriers always stay within one of each other if and only
      if each lists the label once. */
  lemma RotationFairExactly(
      index: LabelIndex, tunnels: seq<Tunnel>, l: Label, active: set<TunnelId>, t: Tunnel, u: Tunnel)
    requires Indexed(index, tunnels) && Distinct(tunnels) && t != u
    requires BestCarrier(t, tunnels, l, active) && BestCarrier(u, tunnels, l, active)
    ensures (forall start: nat, n: nat :: Balanced(index, l, active, start, n, t, u))
       <==> ListsOnce(t, l) && ListsOnce(u, l)
  {
    if ListsOnce(t, l) && ListsOnce(u, l) {
      forall start: nat, n: nat
        ensures Balanced(index, l, active, start, n, t, u)
      {
        RotationFair(index, tunnels, l, active, start, n, t, u);
      }
    } else if !ListsOnce(t, l) {
      var start := TwiceInARow(index, tunnels, l, active, t, u);
      assert !Balanced(index, l, active, start, 2, t, u);
    } else {
      var start := TwiceInARow(index, tunnels, l, active, u, t);
      assert !Balanced(index, l, active, start, 2, t, u);
    }
  }
}
