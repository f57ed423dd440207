/** The `records` table of the fake-IP DNS, as values: one assignment step, the address
    arithmetic in both directions, and runs of assignments from the empty table. */
module FakeIpTable {
  import opened Prelude
  import opened Bytes
  import opened Addresses

  const DAY_IN_MS := 86_400_000
  const LEASE_MS := DAY_IN_MS * 7

  // 198.18.0.0/15 and 2001:db8::/32
  const V4_START := 0xC612_0000
  const V4_SIZE := 0x2_0000
  const V6_START := 0x2001_0DB8_0000_0000_0000_0000_0000_0000
  const V6_SIZE := TWO_96

  datatype Kind = A | AAAA

  datatype Key = Key(kind: Kind, name: string)

  datatype Row = Row(id: int, key: Key, octets: seq<byte>, expiresAt: int)

  /** `lastId` is the largest row id SQLite has handed out (AUTOINCREMENT). */
  datatype Table = Table(rows: seq<Row>, lastId: int)

  const EMPTY := Table([], 0)

  /** One call of the allocator: the clock it read, and its arguments. */
  datatype Call = Call(now: int, name: string, realIp: Ip)

  /** Which statement wrote, and the row its SELECT returned. */
  datatype Choice = Refresh(index: nat) | Recycle(index: nat) | Insert

  datatype Event = Event(call: Call, choice: Choice)

  function KindOf(ip: Ip): Kind {
    if ip.V4? then A else AAAA
  }

  function Octets(ip: Ip): seq<byte> {
    match ip
    case V4(bits) => BigEndian(bits, 4)
    case V6(bits) => BigEndian(bits, 16)
  }

  function KeyOf(c: Call): Key {
    Key(KindOf(c.realIp), c.name)
  }

  predicate HasKey(rows: seq<Row>, key: Key) {
    exists i :: 0 <= i < |rows| && rows[i].key == key
  }

  predicate HasExpired(rows: seq<Row>, now: int) {
    exists i :: 0 <= i < |rows| && rows[i].expiresAt <= now
  }

  /** `i` is a row `ORDER BY expires_at ASC` may put first among the expired ones. */
  predicate OldestExpired(rows: seq<Row>, i: int, now: int) {
    && 0 <= i < |rows|
    && rows[i].expiresAt <= now
    && forall j :: 0 <= j < |rows| ==> rows[i].expiresAt <= rows[j].expiresAt
  }

  predicate Enabled(t: Table, c: Call, choice: Choice) {
    match choice
    case Refresh(i) => i < |t.rows| && t.rows[i].key == KeyOf(c)
    case Recycle(i) => !HasKey(t.rows, KeyOf(c)) && OldestExpired(t.rows, i, c.now)
    case Insert => !HasKey(t.rows, KeyOf(c)) && !HasExpired(t.rows, c.now)
  }

  function Expiry(c: Call): int {
    c.now + LEASE_MS
  }

  function Apply(t: Table, c: Call, choice: Choice): Table
    requires Enabled(t, c, choice)
  {
    match choice
    case Refresh(i) =>
      t.(rows := t.rows[i := t.rows[i].(octets := Octets(c.realIp), expiresAt := Expiry(c))])
    case Recycle(i) =>
      t.(rows := t.rows[i := t.rows[i].(key := KeyOf(c), octets := Octets(c.realIp), expiresAt := Expiry(c))])
    case Insert =>
      Table(t.rows + [Row(t.lastId + 1, KeyOf(c), Octets(c.realIp), Expiry(c))], t.lastId + 1)
  }

  function AssignedId(t: Table, c: Call, choice: Choice): int
    requires Enabled(t, c, choice)
  {
    if choice.Insert? then t.lastId + 1 else t.rows[choice.index].id
  }

  /** `id as u32` and `id as u128` truncate; the additions wrap, as they do in a release build. */
  function ConvertIdToFakeIp(id: int, realIp: Ip): Ip {
    match realIp
    case V4(_) => V4((V4_START + id % TWO_32) % TWO_32)
    case V6(_) => V6((V6_START + id % TWO_128) % TWO_128)
  }

  // ---- The resolver ----

  datatype Resolution =
    | NotFake                             // not in either net: passed through, no name
    | Real(ip: Ip, name: string)
    | Missing                             // in a net, but no such row
    | Panicked                            // octets of the wrong length for the type

  function TrimDots(s: string): string {
    if s != [] && s[|s| - 1] == '.' then TrimDots(s[..|s| - 1]) else s
  }

  /** Rust's `as i64`. */
  function AsI64(n: nat): int {
    var low := n % TWO_64;
    if low < TWO_63 then low else low - TWO_64
  }

  function FakeId(ip: Ip): Option<int> {
    match ip
    case V4(bits) => if V4_START <= bits < V4_START + V4_SIZE then Some(bits - V4_START) else None
    case V6(bits) => if V6_START <= bits < V6_START + V6_SIZE then Some(AsI64(bits - V6_START)) else None
  }

  function FindRow(rows: seq<Row>, kind: Kind, id: int): Option<Row> {
    if rows == [] then None
    else if rows[0].id == id && rows[0].key.kind == kind then Some(rows[0])
    else FindRow(rows[1..], kind, id)
  }

  function DecodeOctets(kind: Kind, octets: seq<byte>): Option<Ip> {
    if kind == A then
      if |octets| == 4 then EncodeBigEndian(octets); PowersOf256(); Some(V4(FromBigEndian(octets))) else None
    else
      if |octets| == 16 then EncodeBigEndian(octets); PowersOf256(); Some(V6(FromBigEndian(octets))) else None
  }

  function Resolve(rows: seq<Row>, ip: Ip): Resolution {
    match FakeId(ip)
    case None => NotFake
    case Some(id) =>
      match FindRow(rows, KindOf(ip), id)
      case None => Missing
      case Some(row) =>
        match DecodeOctets(KindOf(ip), row.octets)
        case None => Panicked
        case Some(realIp) => Real(realIp, TrimDots(row.key.name))
  }

  // ---- Runs ----

  ghost predicate ValidRun(es: seq<Event>)
    decreases |es|, 0
  {
    es == [] ||
    (var front := es[..|es| - 1];
     var e := es[|es| - 1];
     ValidRun(front) && Enabled(After(front), e.call, e.choice))
  }

  ghost function After(es: seq<Event>): Table
    requires ValidRun(es)
    decreases |es|, 1
  {
    if es == [] then EMPTY
    else
      var e := es[|es| - 1];
      Apply(After(es[..|es| - 1]), e.call, e.choice)
  }

  /** The row id the `i`-th call of the run was given. */
  ghost function IdAt(es: seq<Event>, i: nat): int
    requires ValidRun(es) && i < |es|
  {
    RunPrefix(es, i);
    RunPrefix(es, i + 1);
    assert es[..i + 1][..i] == es[..i];
    AssignedId(After(es[..i]), es[i].call, es[i].choice)
  }

  lemma {:induction false} RunPrefix(es: seq<Event>, n: nat)
    requires ValidRun(es) && n <= |es|
    ensures ValidRun(es[..n])
    decreases |es|
  {
    if n == |es| {
      assert es[..n] == es;
    } else {
      RunPrefix(es[..|es| - 1], n);
      assert es[..|es| - 1][..n] == es[..n];
    }
  }

  ghost predicate Monotone(es: seq<Event>) {
    forall i, j :: 0 <= i < j < |es| ==> es[i].call.now <= es[j].call.now
  }

  // ---- What every table reached by a run satisfies ----

  predicate WellFormed(t: Table) {
    && t.lastId == |t.rows|
    && (forall i :: 0 <= i < |t.rows| ==> t.rows[i].id == i + 1)
    && (forall i, j :: 0 <= i < j < |t.rows| ==> t.rows[i].key != t.rows[j].key)
    && (forall i :: 0 <= i < |t.rows| ==> |t.rows[i].octets| == if t.rows[i].key.kind == A then 4 else 16)
  }

  lemma ApplyKeepsWellFormed(t: Table, c: Call, choice: Choice)
    requires WellFormed(t) && Enabled(t, c, choice)
    ensures WellFormed(Apply(t, c, choice))
    ensures 1 <= AssignedId(t, c, choice) <= |Apply(t, c, choice).rows|
    ensures var row := Apply(t, c, choice).rows[AssignedId(t, c, choice) - 1];
            row == Row(AssignedId(t, c, choice), KeyOf(c), Octets(c.realIp), Expiry(c))
  {
  }

  lemma {:induction false} RunWellFormed(es: seq<Event>)
    requires ValidRun(es)
    ensures WellFormed(After(es))
  {
    if es != [] {
      var e := es[|es| - 1];
      RunWellFormed(es[..|es| - 1]);
      ApplyKeepsWellFormed(After(es[..|es| - 1]), e.call, e.choice);
    }
  }

  /** Ids are 1..n: in a well-formed table the row with an id is the one at its place. */
  lemma {:induction false} FindRowAt(rows: seq<Row>, first: int, kind: Kind, id: int)
    requires forall i :: 0 <= i < |rows| ==> rows[i].id == first + i
    ensures FindRow(rows, kind, id) ==
            if first <= id < first + |rows| && rows[id - first].key.kind == kind
            then Some(rows[id - first]) else None
  {
    if rows != [] {
      FindRowAt(rows[1..], first + 1, kind, id);
    }
  }
}
