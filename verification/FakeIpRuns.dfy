/** What holds over every run of the fake-IP allocator: leases, and the size of the table. */
module FakeIpRuns {
  import opened Prelude
  import opened Bytes
  import opened Addresses
  import opened FakeIpTable
  import opened FakeIpNets

  /** The last call of the run for `key`. */
  ghost function LastFor(es: seq<Event>, key: Key): (m: int)
    ensures -1 <= m < |es|
    ensures m >= 0 ==> KeyOf(es[m].call) == key
    ensures forall j :: m < j < |es| ==> KeyOf(es[j].call) != key
  {
    if es == [] then -1
    else if KeyOf(es[|es| - 1].call) == key then |es| - 1
    else LastFor(es[..|es| - 1], key)
  }

  /** No call after the `i`-th reads a clock at which an earlier assignment of the same key,
      from the `i`-th on, has run out. Clocks need not be ordered. */
  ghost predicate WithinLease(es: seq<Event>, i: nat)
    requires i < |es|
  {
    forall m, j {:trigger es[m], es[j]} :: i <= m < j < |es| && KeyOf(es[m].call) == KeyOf(es[i].call) ==>
      es[j].call.now < Expiry(es[m].call)
  }

  ghost predicate RowServes(t: Table, id: int, c: Call) {
    && 1 <= id <= |t.rows|
    && t.rows[id - 1] == Row(id, KeyOf(c), Octets(c.realIp), Expiry(c))
  }

  lemma IdAtPrefix(es: seq<Event>, n: nat, i: nat)
    requires ValidRun(es) && i < n <= |es|
    ensures ValidRun(es[..n]) && IdAt(es[..n], i) == IdAt(es, i)
  {
    RunPrefix(es, n);
    assert es[..n][..i] == es[..i];
  }

  lemma RunSnoc(es: seq<Event>, c: Call, choice: Choice)
    requires ValidRun(es) && Enabled(After(es), c, choice)
    ensures var longer := es + [Event(c, choice)];
            && longer[..|es|] == es
            && ValidRun(longer)
            && After(longer) == Apply(After(es), c, choice)
            && IdAt(longer, |es|) == AssignedId(After(es), c, choice)
  {
  }

  lemma LastId(es: seq<Event>)
    requires ValidRun(es) && es != []
    ensures RowServes(After(es), IdAt(es, |es| - 1), es[|es| - 1].call)
  {
    var n := |es| - 1;
    RunWellFormed(es[..n]);
    ApplyKeepsWellFormed(After(es[..n]), es[n].call, es[n].choice);
  }

  // ---- Exactly when a row is lost ----

  /** Every row of the table shows the last call of the run for its key. */
  lemma {:induction false} RowsShowLastCalls(es: seq<Event>, k: nat)
    requires ValidRun(es) && k < |After(es).rows|
    ensures var m := LastFor(es, After(es).rows[k].key);
            m >= 0 && RowServes(After(es), k + 1, es[m].call)
  {
    var n := |es| - 1;
    var front, e := es[..n], es[n];
    RunWellFormed(front);
    ApplyKeepsWellFormed(After(front), e.call, e.choice);
    if AssignedId(After(front), e.call, e.choice) != k + 1 {
      RowsShowLastCalls(front, k);
      assert After(es).rows[k] == After(front).rows[k];
      assert KeyOf(e.call) != After(es).rows[k].key;
    }
  }

  /** When the last lease of `key` runs out; a key that was never assigned has none. */
  ghost function LeaseEnd(es: seq<Event>, key: Key): int {
    if LastFor(es, key) >= 0 then Expiry(es[LastFor(es, key)].call) else 0
  }

  /** A call at which `key` may lose its row: the call's own key has no row, the lease of `key` has run
      out, and no key with a row has one that ran out earlier. */
  ghost predicate Exposes(es: seq<Event>, c: Call, key: Key)
    requires ValidRun(es)
  {
    && !HasKey(After(es).rows, KeyOf(c))
    && LeaseEnd(es, key) <= c.now
    && forall row :: row in After(es).rows ==> LeaseEnd(es, key) <= LeaseEnd(es, row.key)
  }

  /** A row is free for recycling exactly then, in terms of the calls so far. So recycling is
      least-recently-used: no key with a row was assigned last at an earlier clock. */
  lemma RecycledExactly(es: seq<Event>, c: Call, k: nat)
    requires ValidRun(es) && k < |After(es).rows|
    ensures Enabled(After(es), c, Recycle(k)) <==> Exposes(es, c, After(es).rows[k].key)
  {
    var rows := After(es).rows;
    forall j | 0 <= j < |rows|
      ensures rows[j].expiresAt == LeaseEnd(es, rows[j].key)
    {
      RowsShowLastCalls(es, j);
    }
    if Enabled(After(es), c, Recycle(k)) {
      forall row | row in rows
        ensures LeaseEnd(es, rows[k].key) <= LeaseEnd(es, row.key)
      {
        var j :| 0 <= j < |rows| && rows[j] == row;
      }
    }
  }

  /** At the end of the run the row of call `i` has that call's key, and shows its last call. */
  ghost predicate Serves(es: seq<Event>, i: nat)
    requires ValidRun(es) && i < |es|
  {
    var m := LastFor(es, KeyOf(es[i].call));
    m >= 0 && RowServes(After(es), IdAt(es, i), es[m].call)
  }

  predicate Recycles(choice: Choice, id: int) {
    choice.Recycle? && choice.index == id - 1
  }

  /** One step: a row keeps its key and follows that key's calls, unless it is recycled. */
  lemma RowKept(t: Table, c: Call, choice: Choice, id: int, holder: Call)
    requires WellFormed(t) && Enabled(t, c, choice) && RowServes(t, id, holder)
    ensures var next := if KeyOf(c) == KeyOf(holder) then c else holder;
            RowServes(Apply(t, c, choice), id, next) <==> !Recycles(choice, id)
  {
    assert t.rows[id - 1].key == KeyOf(holder);
    if choice.Refresh? && KeyOf(c) == KeyOf(holder) {
      assert choice.index == id - 1;
    }
  }

  lemma LastForSnoc(es: seq<Event>, e: Event, key: Key)
    ensures LastFor(es + [e], key) == if KeyOf(e.call) == key then |es| else LastFor(es, key)
  {
    assert (es + [e])[..|es|] == es;
  }

  lemma RowKeptByRun(es: seq<Event>, c: Call, choice: Choice, id: int, holder: Call)
    requires ValidRun(es) && Enabled(After(es), c, choice) && RowServes(After(es), id, holder)
    ensures var next := if KeyOf(c) == KeyOf(holder) then c else holder;
            RowServes(Apply(After(es), c, choice), id, next) <==> !Recycles(choice, id)
  {
    RunWellFormed(es);
    RowKept(After(es), c, choice, id, holder);
  }

  /** The next call takes the row just when its statement recycles it. */
  lemma NextCall(es: seq<Event>, i: nat, c: Call, choice: Choice)
    requires ValidRun(es) && i < |es| && Serves(es, i) && Enabled(After(es), c, choice)
    ensures ValidRun(es + [Event(c, choice)])
    ensures Serves(es + [Event(c, choice)], i) <==> !Recycles(choice, IdAt(es, i))
  {
    var longer := es + [Event(c, choice)];
    RunSnoc(es, c, choice);
    IdAtPrefix(longer, |es|, i);
    LastForSnoc(es, Event(c, choice), KeyOf(es[i].call));
    RowKeptByRun(es, c, choice, IdAt(es, i), es[LastFor(es, KeyOf(es[i].call))].call);
  }

  /** It may do so exactly when it exposes the key: some statement SQLite may then run takes the row,
      and otherwise none does. */
  lemma LosableExactly(es: seq<Event>, i: nat, c: Call)
    requires ValidRun(es) && i < |es| && Serves(es, i)
    ensures (exists choice :: Enabled(After(es), c, choice) && Recycles(choice, IdAt(es, i))) <==>
              Exposes(es, c, KeyOf(es[i].call))
  {
    var k := IdAt(es, i) - 1;
    RecycledExactly(es, c, k);
    if Exposes(es, c, KeyOf(es[i].call)) {
      assert Recycles(Recycle(k), IdAt(es, i));
    }
    if choice :| Enabled(After(es), c, choice) && Recycles(choice, IdAt(es, i)) {
      assert choice == Recycle(k);
    }
  }

  // ---- Over whole runs ----

  ghost predicate ServesAt(es: seq<Event>, i: nat, n: nat)
    requires ValidRun(es) && i < n <= |es|
  {
    ValidRun(es[..n]) && Serves(es[..n], i)
  }

  /** Call `j` takes the row of call `i` for another key. */
  ghost predicate TakesRow(es: seq<Event>, i: nat, j: nat)
    requires ValidRun(es) && i < j < |es|
  {
    Recycles(es[j].choice, IdAt(es, i))
  }

  ghost predicate ExposesAt(es: seq<Event>, i: nat, j: nat)
    requires ValidRun(es) && i < j < |es|
  {
    ValidRun(es[..j]) && Exposes(es[..j], es[j].call, KeyOf(es[i].call))
  }

  ghost predicate NeverTaken(es: seq<Event>, i: nat)
    requires ValidRun(es) && i < |es|
  {
    NoneRecycles(es, i, |es|, IdAt(es, i))
  }

  /** No call after the `i`-th and before the `n`-th recycles the row with this id. */
  predicate NoneRecycles(es: seq<Event>, i: nat, n: nat, id: int)
    requires n <= |es|
  {
    forall j :: i < j < n ==> !Recycles(es[j].choice, id)
  }

  lemma PrefixSnoc(es: seq<Event>, j: nat)
    requires j < |es|
    ensures es[..j + 1] == es[..j] + [Event(es[j].call, es[j].choice)]
    ensures es[..j + 1][..j] == es[..j] && es[..j + 1][j] == es[j]
  {
  }

  lemma PrefixStep(es: seq<Event>, j: nat)
    requires ValidRun(es) && j < |es|
    ensures ValidRun(es[..j]) && ValidRun(es[..j + 1])
    ensures Enabled(After(es[..j]), es[j].call, es[j].choice)
  {
    RunPrefix(es, j);
    RunPrefix(es, j + 1);
    PrefixSnoc(es, j);
  }

  lemma StepAt(es: seq<Event>, i: nat, j: nat)
    requires ValidRun(es) && i < j < |es| && ServesAt(es, i, j)
    ensures ServesAt(es, i, j + 1) <==> !TakesRow(es, i, j)
    ensures TakesRow(es, i, j) ==> ExposesAt(es, i, j)
  {
    PrefixStep(es, j);
    PrefixSnoc(es, j);
    IdAtPrefix(es, j, i);
    NextCall(es[..j], i, es[j].call, es[j].choice);
    LosableExactly(es[..j], i, es[j].call);
  }

  lemma ServesFirst(es: seq<Event>, i: nat)
    requires ValidRun(es) && i < |es|
    ensures ServesAt(es, i, i + 1)
  {
    RunPrefix(es, i + 1);
    LastId(es[..i + 1]);
  }

  lemma ServesNext(es: seq<Event>, i: nat, j: nat)
    requires ValidRun(es) && i < j < |es| && ServesAt(es, i, j) && !TakesRow(es, i, j)
    ensures ServesAt(es, i, j + 1)
  {
    StepAt(es, i, j);
  }

  lemma {:induction false} ServesUntilTaken(es: seq<Event>, i: nat, n: nat)
    requires ValidRun(es) && i < n <= |es| && NoneRecycles(es, i, n, IdAt(es, i))
    ensures ServesAt(es, i, n)
  {
    if n == i + 1 {
      ServesFirst(es, i);
    } else {
      ServesUntilTaken(es, i, n - 1);
      ServesNext(es, i, n - 1);
    }
  }

  ghost predicate ServesThroughout(es: seq<Event>, i: nat)
    requires ValidRun(es) && i < |es|
  {
    forall n :: i < n <= |es| ==> ServesAt(es, i, n)
  }

  /** A row serves from its call to the end of the run if and only if no later call recycles it. */
  lemma ServesExactly(es: seq<Event>, i: nat)
    requires ValidRun(es) && i < |es|
    ensures ServesThroughout(es, i) <==> NeverTaken(es, i)
  {
    if NeverTaken(es, i) {
      forall n | i < n <= |es|
        ensures ServesAt(es, i, n)
      {
        ServesUntilTaken(es, i, n);
      }
    }
    if ServesThroughout(es, i) {
      forall j | i < j < |es|
        ensures !Recycles(es[j].choice, IdAt(es, i))
      {
        StepAt(es, i, j);
      }
    }
  }

  /** No later call exposes the key while its row serves. */
  ghost predicate NeverExposed(es: seq<Event>, i: nat)
    requires ValidRun(es) && i < |es|
  {
    forall j :: i < j < |es| && ServesAt(es, i, j) ==> !ExposesAt(es, i, j)
  }

  lemma NotTakenAt(es: seq<Event>, i: nat, j: nat)
    requires ValidRun(es) && i < j < |es| && NeverExposed(es, i) && ServesAt(es, i, j)
    ensures !Recycles(es[j].choice, IdAt(es, i))
  {
    StepAt(es, i, j);
  }

  lemma NotTakenNext(es: seq<Event>, i: nat, j: nat)
    requires ValidRun(es) && i < j < |es| && NeverExposed(es, i) && NoneRecycles(es, i, j, IdAt(es, i))
    ensures !Recycles(es[j].choice, IdAt(es, i))
  {
    ServesUntilTaken(es, i, j);
    NotTakenAt(es, i, j);
  }

  lemma {:induction false} NotTakenBefore(es: seq<Event>, i: nat, n: nat, id: int)
    requires ValidRun(es) && i < n <= |es| && NeverExposed(es, i) && id == IdAt(es, i)
    ensures NoneRecycles(es, i, n, id)
  {
    if n > i + 1 {
      NotTakenBefore(es, i, n - 1, id);
      NotTakenNext(es, i, n - 1);
    }
  }

  lemma WithinLeaseIsNeverExposed(es: seq<Event>, i: nat)
    requires ValidRun(es) && i < |es| && WithinLease(es, i)
    ensures NeverExposed(es, i)
  {
    forall j | i < j < |es| && ServesAt(es, i, j)
      ensures !ExposesAt(es, i, j)
    {
      var m := LastFor(es[..j], KeyOf(es[i].call));
      assert es[..j][i] == es[i] && es[..j][m] == es[m];
      assert es[j].call.now < Expiry(es[m].call);
    }
  }

  /** The lease on table rows: the row keeps the key, with what its last call stored. */
  lemma RowLease(es: seq<Event>, i: nat)
    requires ValidRun(es) && i < |es| && WithinLease(es, i)
    ensures LastFor(es, KeyOf(es[i].call)) >= i
    ensures RowServes(After(es), IdAt(es, i), es[LastFor(es, KeyOf(es[i].call))].call)
  {
    WithinLeaseIsNeverExposed(es, i);
    NotTakenBefore(es, i, |es|, IdAt(es, i));
    ServesUntilTaken(es, i, |es|);
    assert es[..|es|] == es;
  }

  lemma {:induction false} TrimDotsStops(s: string)
    ensures TrimDots(s) <= s
    ensures TrimDots(s) != [] ==> TrimDots(s)[|TrimDots(s)| - 1] != '.'
    ensures forall k :: |TrimDots(s)| <= k < |s| ==> s[k] == '.'
  {
    if s != [] && s[|s| - 1] == '.' {
      TrimDotsStops(s[..|s| - 1]);
    }
  }

  predicate IdInRange(id: int, kind: Kind) {
    if kind == A then 1 <= id < V4_SIZE else 1 <= id < TWO_63
  }

  /** In range the address arithmetic stays inside the net and the resolver recovers the id. */
  lemma AddressRoundTrip(id: int, realIp: Ip)
    requires IdInRange(id, KindOf(realIp))
    ensures FakeId(ConvertIdToFakeIp(id, realIp)) == Some(id)
    ensures KindOf(ConvertIdToFakeIp(id, realIp)) == KindOf(realIp)
  {
    if realIp.V4? {
      assert id % TWO_32 == id;
    } else {
      assert id % TWO_128 == id && id % TWO_64 == id;
    }
  }

  lemma OctetsRoundTrip(ip: Ip)
    ensures DecodeOctets(KindOf(ip), Octets(ip)) == Some(ip)
  {
    PowersOf256();
    match ip {
      case V4(bits) => DecodeBigEndian(bits, 4); EncodeBigEndian(BigEndian(bits, 4));
      case V6(bits) => DecodeBigEndian(bits, 16); EncodeBigEndian(BigEndian(bits, 16));
    }
  }

  /** What the resolver answers for the address of a row. */
  lemma ResolveServed(t: Table, id: int, c: Call)
    requires WellFormed(t) && RowServes(t, id, c) && IdInRange(id, KindOf(c.realIp))
    ensures Resolve(t.rows, ConvertIdToFakeIp(id, c.realIp)) == Real(c.realIp, TrimDots(c.name))
  {
    AddressRoundTrip(id, c.realIp);
    FindRowAt(t.rows, 1, KindOf(c.realIp), id);
    OctetsRoundTrip(c.realIp);
  }

  lemma SameKindSameAddress(id: int, a: Ip, b: Ip)
    requires KindOf(a) == KindOf(b)
    ensures ConvertIdToFakeIp(id, a) == ConvertIdToFakeIp(id, b)
  {
  }

  /** The lease guarantee. The row of a call serves to the end of the run if and only if no later call
      takes it, which it can only when it exposes the key, and so not within the lease. While it
      serves, the address handed out resolves to the name it was handed out for, with the real
      address most recently assigned to that key. */
  lemma LeaseGuarantee(es: seq<Event>, i: nat)
    requires ValidRun(es) && i < |es|
    ensures ServesThroughout(es, i) <==> NeverTaken(es, i)
    ensures NeverExposed(es, i) ==> NeverTaken(es, i)
    ensures WithinLease(es, i) ==> NeverExposed(es, i)
    ensures NeverTaken(es, i) && IdInRange(IdAt(es, i), KindOf(es[i].call.realIp)) ==>
              var last := LastFor(es, KeyOf(es[i].call));
              var fake := ConvertIdToFakeIp(IdAt(es, i), es[i].call.realIp);
              last >= i && Resolve(After(es).rows, fake) == Real(es[last].call.realIp, TrimDots(es[i].call.name))
  {
    ServesExactly(es, i);
    if NeverExposed(es, i) {
      NotTakenBefore(es, i, |es|, IdAt(es, i));
    }
    if WithinLease(es, i) {
      WithinLeaseIsNeverExposed(es, i);
    }
    if NeverTaken(es, i) && IdInRange(IdAt(es, i), KindOf(es[i].call.realIp)) {
      ServedResolves(es, i);
    }
  }

  lemma ServedResolves(es: seq<Event>, i: nat)
    requires ValidRun(es) && i < |es| && NeverTaken(es, i) && IdInRange(IdAt(es, i), KindOf(es[i].call.realIp))
    ensures var last := LastFor(es, KeyOf(es[i].call));
            var fake := ConvertIdToFakeIp(IdAt(es, i), es[i].call.realIp);
            last >= i && Resolve(After(es).rows, fake) == Real(es[last].call.realIp, TrimDots(es[i].call.name))
  {
    var last := LastFor(es, KeyOf(es[i].call));
    ServesUntilTaken(es, i, |es|);
    assert es[..|es|] == es;
    RunWellFormed(es);
    ResolveServed(After(es), IdAt(es, i), es[last].call);
    SameKindSameAddress(IdAt(es, i), es[i].call.realIp, es[last].call.realIp);
  }

  /** With a clock that never goes back, a lease of seven days from the call is enough. */
  lemma MonotoneWithinLease(es: seq<Event>, i: nat)
    requires i < |es| && Monotone(es) && es[|es| - 1].call.now < Expiry(es[i].call)
    ensures WithinLease(es, i)
  {
  }

  lemma LastSharesNothing(es: seq<Event>, i: nat)
    requires ValidRun(es) && i < |es| - 1
    requires KeyOf(es[i].call) != KeyOf(es[|es| - 1].call)
    requires IdAt(es, i) == IdAt(es, |es| - 1)
    ensures !WithinLease(es, i)
  {
    LastId(es);
    if WithinLease(es, i) {
      RowLease(es, i);
    }
  }

  /** Two different keys get the same row only when some call up to the second one read a clock past a
      lease of the first; with an ordered clock, only when the first one's lease has run out. */
  lemma NoSharing(es: seq<Event>, i: nat, j: nat)
    requires ValidRun(es) && i < j < |es|
    requires KeyOf(es[i].call) != KeyOf(es[j].call)
    requires IdAt(es, i) == IdAt(es, j)
    ensures !WithinLease(es[..j + 1], i)
    ensures Monotone(es) ==> Expiry(es[i].call) <= es[j].call.now
  {
    IdAtPrefix(es, j + 1, i);
    IdAtPrefix(es, j + 1, j);
    LastSharesNothing(es[..j + 1], i);
    if Monotone(es) && es[j].call.now < Expiry(es[i].call) {
      MonotonePrefix(es, j + 1);
      MonotoneWithinLease(es[..j + 1], i);
    }
  }

  /** With an ordered clock nobody gets the row of another key for 604,800 seconds. */
  lemma SevenDays(es: seq<Event>, i: nat, j: nat)
    requires ValidRun(es) && Monotone(es) && i < j < |es|
    requires es[j].call.now < es[i].call.now + 604_800_000 && KeyOf(es[i].call) != KeyOf(es[j].call)
    ensures IdAt(es, i) != IdAt(es, j)
  {
    if IdAt(es, i) == IdAt(es, j) {
      NoSharing(es, i, j);
    }
  }

  /** And from then on, no other row being older, the next new key gets it. */
  lemma AfterSevenDays(now: int, first: string, second: string, ip: Ip, other: Ip, wait: nat)
    requires Key(KindOf(ip), first) != Key(KindOf(other), second)
    ensures var es := [Event(Call(now, first, ip), Insert)];
            var next := Call(now + wait, second, other);
            && ValidRun(es)
            && (Enabled(After(es), next, Recycle(0)) <==> wait >= 604_800_000)
            && (Enabled(After(es), next, Insert) <==> wait < 604_800_000)
  {
    var es := [Event(Call(now, first, ip), Insert)];
    assert es[..0] == [] && ValidRun([]) && After([]) == EMPTY;
    assert ValidRun(es);
    var row := Row(1, Key(KindOf(ip), first), Octets(ip), now + LEASE_MS);
    assert After(es).rows == [row];
    assert After(es).rows[0] == row;
  }

  /** Without the clock order the seven days can shrink: `now` is read before the mutex is taken,
      so a refresh may carry an older clock, and the row is then recycled inside the lease. */
  lemma ReorderedClockBreaksLease() returns (es: seq<Event>)
    ensures ValidRun(es) && |es| == 3 && !Monotone(es)
    ensures forall j :: 0 < j < 3 ==> es[j].call.now < Expiry(es[0].call)
    ensures IdAt(es, 2) == IdAt(es, 0) && KeyOf(es[2].call) != KeyOf(es[0].call)
  {
    var a := Call(10, "a.", V4(1));
    var a' := Call(5, "a.", V4(1));
    var b := Call(LEASE_MS + 5, "b.", V4(1));
    es := [Event(a, Insert), Event(a', Refresh(0)), Event(b, Recycle(0))];
    assert es[..0] == [] && es[..1] == [es[0]] && es[..2] == [es[0], es[1]];
    assert [es[0]][..0] == [] && [es[0], es[1]][..1] == [es[0]];
    assert ValidRun([]) && After([]) == EMPTY;
    assert ValidRun(es[..1]);
    var t1 := After(es[..1]);
    assert t1.rows == [Row(1, KeyOf(a), Octets(V4(1)), Expiry(a))];
    assert ValidRun(es[..2]);
    var t2 := After(es[..2]);
    assert t2.rows == [Row(1, KeyOf(a), Octets(V4(1)), Expiry(a'))];
    assert ValidRun(es);
    assert !(es[0].call.now <= es[1].call.now);
  }

  // ---- Size of the table ----

  ghost function WindowKeys(es: seq<Event>, now: int): set<Key> {
    set m | 0 <= m < |es| && now < Expiry(es[m].call) :: KeyOf(es[m].call)
  }

  ghost function LiveKeys(rows: seq<Row>, now: int): set<Key> {
    set i | 0 <= i < |rows| && now < rows[i].expiresAt :: rows[i].key
  }

  /** Peak, over the calls of the run, of the distinct keys assigned in the seven days up to it. */
  ghost function Peak(es: seq<Event>): nat {
    if es == [] then 0
    else
      var n := |es| - 1;
      Max(Peak(es[..n]), |WindowKeys(es, es[n].call.now)|)
  }

  /** Unexpired rows are exactly the keys assigned within the last seven days. */
  lemma LiveIsWindow(es: seq<Event>)
    requires ValidRun(es) && Monotone(es) && es != []
    ensures LiveKeys(After(es).rows, es[|es| - 1].call.now) == WindowKeys(es, es[|es| - 1].call.now)
  {
    var now := es[|es| - 1].call.now;
    var rows := After(es).rows;
    forall key | key in LiveKeys(rows, now)
      ensures key in WindowKeys(es, now)
    {
      var k :| 0 <= k < |rows| && now < rows[k].expiresAt && rows[k].key == key;
      RowsShowLastCalls(es, k);
    }
    forall key | key in WindowKeys(es, now)
      ensures key in LiveKeys(rows, now)
    {
      var m :| 0 <= m < |es| && now < Expiry(es[m].call) && KeyOf(es[m].call) == key;
      MonotoneWithinLease(es, m);
      RowLease(es, m);
      var last := LastFor(es, key);
      assert last == m || es[m].call.now <= es[last].call.now;
      assert rows[IdAt(es, m) - 1].key == key;
    }
  }

  lemma {:induction false} LiveKeysCount(rows: seq<Row>, now: int)
    requires forall i, j :: 0 <= i < j < |rows| ==> rows[i].key != rows[j].key
    ensures |LiveKeys(rows, now)| <= |rows|
    ensures !HasExpired(rows, now) ==> |LiveKeys(rows, now)| == |rows|
  {
    if rows != [] {
      var n := |rows| - 1;
      var front := rows[..n];
      LiveKeysCount(front, now);
      assert forall i :: 0 <= i < n ==> front[i] == rows[i];
      if now < rows[n].expiresAt {
        assert LiveKeys(rows, now) == LiveKeys(front, now) + {rows[n].key};
      } else {
        assert LiveKeys(rows, now) == LiveKeys(front, now);
      }
      if !HasExpired(rows, now) {
        assert !HasExpired(front, now);
        assert !(rows[n].expiresAt <= now);
      }
    }
  }

  lemma MonotonePrefix(es: seq<Event>, n: nat)
    requires Monotone(es) && n <= |es|
    ensures Monotone(es[..n])
  {
  }

  /** The table is exactly as large as its busiest seven days needed. */
  lemma {:induction false} SizeIsPeak(es: seq<Event>)
    requires ValidRun(es) && Monotone(es)
    ensures |After(es).rows| == Peak(es)
  {
    if es != [] {
      var n := |es| - 1;
      var front, e := es[..n], es[n];
      var rows := After(es).rows;
      MonotonePrefix(es, n);
      SizeIsPeak(front);
      RunWellFormed(es);
      LiveIsWindow(es);
      LiveKeysCount(rows, e.call.now);
      if e.choice.Insert? {
        assert forall k :: 0 <= k < |rows| - 1 ==> rows[k] == After(front).rows[k];
        assert !HasExpired(rows, e.call.now);
      }
    }
  }

  /** Every id up to the size of the table has been handed out. */
  lemma {:induction false} IdsAreUsed(es: seq<Event>, id: int)
    requires ValidRun(es) && 1 <= id <= |After(es).rows|
    ensures exists i {:trigger es[i]} :: 0 <= i < |es| && IdAt(es, i) == id
  {
    var n := |es| - 1;
    var front, e := es[..n], es[n];
    RunWellFormed(front);
    if id <= |After(front).rows| {
      IdsAreUsed(front, id);
      var i :| 0 <= i < n && IdAt(front, i) == id;
      assert front[..i] == es[..i] && es[i] == front[i];
      assert IdAt(es, i) == id;
    } else {
      assert IdAt(es, n) == id;
      assert es[n] == e;
    }
  }

  lemma {:induction false} IdsAreBounded(es: seq<Event>, i: nat)
    requires ValidRun(es) && i < |es|
    ensures 1 <= IdAt(es, i) <= |After(es).rows|
  {
    var n := |es| - 1;
    var front, e := es[..n], es[n];
    RunWellFormed(front);
    ApplyKeepsWellFormed(After(front), e.call, e.choice);
    assert es[..n + 1] == es;
    if i < n {
      IdsAreBounded(front, i);
      assert front[..i] == es[..i];
    }
  }

  /** Capacity: every id stays below the size of the IPv4 net iff no seven days need more keys. */
  lemma Capacity(es: seq<Event>)
    requires ValidRun(es) && Monotone(es)
    ensures (forall i :: 0 <= i < |es| ==> 1 <= IdAt(es, i) < V4_SIZE) <==> Peak(es) < V4_SIZE
  {
    SizeIsPeak(es);
    RunWellFormed(es);
    forall i | 0 <= i < |es|
      ensures 1 <= IdAt(es, i) <= Peak(es)
    {
      IdsAreBounded(es, i);
    }
    if Peak(es) >= V4_SIZE {
      IdsAreUsed(es, Peak(es));
      var i :| 0 <= i < |es| && IdAt(es, i) == Peak(es);
    }
  }

  lemma V4AddressInNet(id: int, realIp: Ip)
    requires 1 <= id < V4_SIZE && realIp.V4?
    ensures V4_START + id < TWO_32
    ensures FakeId(ConvertIdToFakeIp(id, realIp)) == Some(id)
  {
    AddressRoundTrip(id, realIp);
  }

  /** Within that capacity every IPv4 answer lies in 198.18.0.0/15 and its addition does not overflow. */
  lemma AddressesInNet(es: seq<Event>, i: nat)
    requires ValidRun(es) && Monotone(es) && Peak(es) < V4_SIZE
    requires i < |es| && es[i].call.realIp.V4?
    ensures V4_START + IdAt(es, i) < TWO_32
    ensures FakeId(ConvertIdToFakeIp(IdAt(es, i), es[i].call.realIp)) == Some(IdAt(es, i))
    ensures var fake := ConvertIdToFakeIp(IdAt(es, i), es[i].call.realIp);
            fake.V4? && Octets(fake)[0] == 198 && Octets(fake)[1] in {18, 19}
  {
    Capacity(es);
    ConvertedIsAddress(IdAt(es, i), es[i].call.realIp);
    V4AddressInNet(IdAt(es, i), es[i].call.realIp);
  }

  /** No lookup ever meets octets of the wrong length, so the resolver's unwrap cannot fail. */
  lemma ResolveNeverPanics(es: seq<Event>, ip: Ip)
    requires ValidRun(es)
    ensures Resolve(After(es).rows, ip) != Panicked
    ensures Resolve(After(es).rows, ip) == NotFake <==> FakeId(ip).None?
    ensures Resolve(After(es).rows, ip).Real? <==>
            FakeId(ip).Some? && 1 <= FakeId(ip).value <= |After(es).rows|
            && After(es).rows[FakeId(ip).value - 1].key.kind == KindOf(ip)
  {
    RunWellFormed(es);
    if FakeId(ip).Some? {
      FindRowAt(After(es).rows, 1, KindOf(ip), FakeId(ip).value);
    }
  }

  /** The IPv6 inverse reads only the low 64 bits: two addresses of the net stand for the same id
      iff they differ by a multiple of 2^64. The IPv4 inverse is one to one. */
  lemma SameFakeId(a: Ip, b: Ip)
    requires FakeId(a).Some? && FakeId(b).Some? && KindOf(a) == KindOf(b)
    ensures FakeId(a) == FakeId(b) <==>
            if a.V4? then a == b else a.v6 % TWO_64 == b.v6 % TWO_64
  {
    if a.V6? {
      ModuloShift(a.v6 - V6_START);
      ModuloShift(b.v6 - V6_START);
    }
  }

  /** Two addresses of the IPv6 net that resolve alike, though only one of them is ever handed out. */
  lemma AliasedAddresses(rows: seq<Row>)
    ensures var a, b := V6(V6_START + 1), V6(V6_START + TWO_64 + 1);
            a != b && FakeId(a) == FakeId(b) == Some(1) && Resolve(rows, a) == Resolve(rows, b)
  {
    SameFakeId(V6(V6_START + 1), V6(V6_START + TWO_64 + 1));
  }

  lemma ModuloShift(x: nat)
    ensures (x + V6_START) % TWO_64 == x % TWO_64
  {
  }
}
