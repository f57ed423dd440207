/** The allocator and the resolver as objects over one shared database. */
module FakeIpDns {
  import opened Prelude
  import opened Addresses
  import opened FakeIpTable
  import opened FakeIpNets
  import opened FakeIpRuns

  /** The SQLite file: the `records` table with the four statements used on it. */
  class Database {
    var rows: seq<Row>
    var lastId: int
    ghost var events: seq<Event>   // the assignments that led here

    ghost predicate Valid()
      reads this
    {
      ValidRun(events) && After(events) == Contents()
    }

    function Contents(): Table
      reads this
    {
      Table(rows, lastId)
    }

    constructor ()
      ensures Valid() && events == []
    {
      rows, lastId, events := [], 0, [];
    }

    /** Any row with the key; SQL promises no order here. */
    method SelectByKey(key: Key) returns (found: Option<nat>)
      ensures found.Some? ==> found.value < |rows| && rows[found.value].key == key
      ensures found.None? ==> !HasKey(rows, key)
    {
      if i :| 0 <= i < |rows| && rows[i].key == key {
        return Some(i);
      }
      return None;
    }

    /** A row that expired longest ago, if any has; ties are broken arbitrarily. */
    method SelectExpired(now: int) returns (found: Option<nat>)
      ensures found.Some? ==> OldestExpired(rows, found.value, now)
      ensures found.None? ==> !HasExpired(rows, now)
    {
      found := None;
      for i := 0 to |rows|
        invariant found.None? ==> forall j :: 0 <= j < i ==> rows[j].expiresAt > now
        invariant found.Some? ==> found.value < i && rows[found.value].expiresAt <= now
        invariant found.Some? ==> forall j :: 0 <= j < i ==> rows[found.value].expiresAt <= rows[j].expiresAt
      {
        if rows[i].expiresAt <= now {
          var older := found.None? || rows[i].expiresAt < rows[found.value].expiresAt;
          var tie := found.Some? && rows[i].expiresAt == rows[found.value].expiresAt;
          var pick: bool :| pick ==> older || tie;
          if older || pick {
            found := Some(i);
          }
        }
      }
    }
  }

  class FakeAuthority {
    const database: Database

    constructor (database: Database)
      ensures this.database == database
    {
      this.database := database;
    }

    /** One of the three statements, and the id of the row it wrote. */
    method Assign(now: int, name: string, realIp: Ip) returns (id: int)
      requires database.Valid()
      modifies database
      ensures database.Valid()
      ensures |database.events| == |old(database.events)| + 1
      ensures database.events[..|old(database.events)|] == old(database.events)
      ensures database.events[|old(database.events)|].call == Call(now, name, realIp)
      ensures id == IdAt(database.events, |old(database.events)|)
    {
      var key := Key(KindOf(realIp), name);
      var octets := Octets(realIp);
      var expiresAt := now + LEASE_MS;
      ghost var call := Call(now, name, realIp);
      ghost var before := database.events;

      var found := database.SelectByKey(key);
      if found.Some? {
        var i := found.value;
        id := database.rows[i].id;
        RunSnoc(before, call, Refresh(i));
        database.rows := database.rows[i := database.rows[i].(octets := octets, expiresAt := expiresAt)];
        database.events := before + [Event(call, Refresh(i))];
        return;
      }

      found := database.SelectExpired(now);
      if found.Some? {
        var i := found.value;
        id := database.rows[i].id;
        RunSnoc(before, call, Recycle(i));
        database.rows := database.rows[i := Row(id, key, octets, expiresAt)];
        database.events := before + [Event(call, Recycle(i))];
        return;
      }

      id := database.lastId + 1;
      RunSnoc(before, call, Insert);
      database.rows := database.rows + [Row(id, key, octets, expiresAt)];
      database.lastId := id;
      database.events := before + [Event(call, Insert)];
    }

    /** The event recorded says which branch ran, so `Valid` of the longer history pins the new
        table, and `IdAt` the answer. */
    method AssignFakeIp(now: int, name: string, realIp: Ip) returns (fake: Ip)
      requires database.Valid()
      modifies database
      ensures database.Valid()
      ensures |database.events| == |old(database.events)| + 1
      ensures database.events[..|old(database.events)|] == old(database.events)
      ensures database.events[|old(database.events)|].call == Call(now, name, realIp)
      ensures fake == ConvertIdToFakeIp(IdAt(database.events, |old(database.events)|), realIp)
      ensures var id := IdAt(database.events, |old(database.events)|);
              id >= 1 && AddressOf(fake, id) && (fake.V4? <==> realIp.V4?)
    {
      var id := Assign(now, name, realIp);
      LastId(database.events);
      ConvertedIsAddress(id, realIp);
      fake := ConvertIdToFakeIp(id, realIp);
    }
  }

  class FakeIpResolver {
    const database: Database

    constructor (database: Database)
      ensures this.database == database
    {
      this.database := database;
    }

    /** The answer of the specification, which over a valid history is never a panic; for every
        call whose row no later call has taken it is that call's name. */
    method ResolveIp(ip: Ip) returns (resolution: Resolution)
      requires database.Valid()
      ensures resolution == Resolve(database.rows, ip) && resolution != Panicked
      ensures forall i {:trigger database.events[i]} ::
                0 <= i < |database.events| && NeverTaken(database.events, i)
                && IdInRange(IdAt(database.events, i), KindOf(database.events[i].call.realIp))
                && ip == ConvertIdToFakeIp(IdAt(database.events, i), database.events[i].call.realIp) ==>
                resolution.Real? && resolution.name == TrimDots(database.events[i].call.name)
    {
      ghost var es := database.events;
      ResolveNeverPanics(es, ip);
      forall i {:trigger es[i]} | 0 <= i < |es| && NeverTaken(es, i)
          && IdInRange(IdAt(es, i), KindOf(es[i].call.realIp))
          && ip == ConvertIdToFakeIp(IdAt(es, i), es[i].call.realIp)
        ensures Resolve(database.rows, ip).Real? && Resolve(database.rows, ip).name == TrimDots(es[i].call.name)
      {
        LeaseGuarantee(es, i);
      }
      var id := FakeId(ip);
      if id.None? {
        return NotFake;
      }
      var row := FindRow(database.rows, KindOf(ip), id.value);
      if row.None? {
        return Missing;
      }
      var realIp := DecodeOctets(KindOf(ip), row.value.octets);
      return Real(realIp.value, TrimDots(row.value.key.name));
    }
  }
}
