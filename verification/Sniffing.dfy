/** The sniffing loop of the transparent proxy, and what reaches the other end of the tunnel. */
module Sniffing {
  import opened Prelude
  import opened Bytes
  import opened Addresses
  import opened TunnelHeader
  import opened Seqs

  const READ_BUFFER_SIZE := 4096
  const READ_ATTEMPTS_LIMIT := 5

  /** What a `try_read` on the client's stream comes back with. */
  datatype Attempt = Data(bytes: seq<byte>) | Closed | WouldBlock | Failed

  /** What the TLS parser makes of a buffer: not enough yet, or an answer with or without a name. */
  type Extractor = seq<byte> -> Option<Option<Text>>

  /** Reads fill the buffer at most, are never empty, and find nothing once the client has closed. */
  ghost predicate ClientScript(attempts: seq<Attempt>) {
    forall i :: 0 <= i < |attempts| ==>
      && (attempts[i].Data? ==> 0 < |attempts[i].bytes| <= READ_BUFFER_SIZE)
      && (attempts[i].Closed? ==> forall j :: i < j < |attempts| ==> attempts[j].Closed?)
  }

  /** The bytes the reads bring. */
  function BytesOf(attempts: seq<Attempt>): seq<byte> {
    if attempts == [] then []
    else
      var last := attempts[|attempts| - 1];
      BytesOf(attempts[..|attempts| - 1]) + (if last.Data? then last.bytes else [])
  }

  function Blocked(attempts: seq<Attempt>): nat {
    if attempts == [] then 0
    else Blocked(attempts[..|attempts| - 1]) + (if attempts[|attempts| - 1].WouldBlock? then 1 else 0)
  }

  predicate NotTls(buffer: seq<byte>) {
    (|buffer| >= 1 && buffer[0] != 0x16) || (|buffer| >= 2 && buffer[1] != 0x03)
  }

  datatype Exit = ClientClosed | NotTlsTraffic | Answered(name: Option<Text>) | GaveUp | ReadFailed

  /** Whether, and why, sniffing ends with the last of these reads. */
  function Verdict(attempts: seq<Attempt>, extract: Extractor): Option<Exit>
    requires attempts != []
  {
    match attempts[|attempts| - 1]
    case Closed => Some(ClientClosed)
    case Data(_) =>
      if NotTls(BytesOf(attempts)) then Some(NotTlsTraffic)
      else if extract(BytesOf(attempts)).Some? then Some(Answered(extract(BytesOf(attempts)).value))
      else None
    case WouldBlock => if Blocked(attempts) > READ_ATTEMPTS_LIMIT then Some(GaveUp) else None
    case Failed => Some(ReadFailed)
  }

  ghost predicate Undecided(attempts: seq<Attempt>, k: nat, extract: Extractor)
    requires k <= |attempts|
  {
    forall j :: 0 < j <= k ==> Verdict(attempts[..j], extract) == None
  }

  datatype Sniffed = Sniffed(name: Option<Text>, buffer: seq<byte>, end: bool, used: nat)

  /** `r` is what sniffing has after the first read that decides. */
  ghost predicate IsSniffed(attempts: seq<Attempt>, extract: Extractor, r: Sniffed) {
    && 0 < r.used <= |attempts| && Undecided(attempts, r.used - 1, extract)
    && r.buffer == BytesOf(attempts[..r.used])
    && match Verdict(attempts[..r.used], extract)
       case Some(Answered(name)) => r.name == name && !r.end
       case Some(exit) => r.name == None && r.end == exit.ClientClosed?
       case None => false
  }

  /** What ends sniffing, read by read: the client has closed; a read failed; nothing was there to read for
      the sixth time; or the bytes read so far do not start as a TLS handshake record does (0x16, 0x03,
      section 5.1 of RFC 8446) or the parser has an answer for them. */
  ghost predicate EndsSniffing(attempts: seq<Attempt>, extract: Extractor) {
    attempts != [] &&
    var last, bytes := attempts[|attempts| - 1], BytesOf(attempts);
    || last.Closed? || last.Failed?
    || (last.WouldBlock? && multiset(attempts)[WouldBlock] > 5)
    || (last.Data?
        && ((bytes != [] && bytes[0] != 0x16) || (|bytes| > 1 && bytes[1] != 0x03) || extract(bytes).Some?))
  }

  lemma {:induction false} BlockedCounts(attempts: seq<Attempt>)
    ensures Blocked(attempts) == multiset(attempts)[WouldBlock]
  {
    if attempts != [] {
      var front, last := attempts[..|attempts| - 1], attempts[|attempts| - 1];
      BlockedCounts(front);
      assert attempts == front + [last];
    }
  }

  lemma VerdictEnds(attempts: seq<Attempt>, extract: Extractor)
    requires attempts != []
    ensures Verdict(attempts, extract).Some? <==> EndsSniffing(attempts, extract)
  {
    BlockedCounts(attempts);
  }

  /** No read decides just when none of them ends sniffing. */
  lemma UndecidedExactly(attempts: seq<Attempt>, k: nat, extract: Extractor)
    requires k <= |attempts|
    ensures Undecided(attempts, k, extract) <==> forall j :: 0 < j <= k ==> !EndsSniffing(attempts[..j], extract)
  {
    forall j | 0 < j <= k
      ensures Verdict(attempts[..j], extract) == None <==> !EndsSniffing(attempts[..j], extract)
    {
      VerdictEnds(attempts[..j], extract);
    }
  }

  /** Sniffing ends with the first read that does, and says that the client is done just when it closed. */
  lemma SniffedExactly(attempts: seq<Attempt>, extract: Extractor, r: Sniffed)
    requires IsSniffed(attempts, extract, r)
    ensures EndsSniffing(attempts[..r.used], extract)
    ensures forall j :: 0 < j < r.used ==> !EndsSniffing(attempts[..j], extract)
    ensures r.end <==> attempts[r.used - 1].Closed?
    ensures r.name.Some? ==> attempts[r.used - 1].Data? && extract(r.buffer) == Some(r.name)
  {
    UndecidedExactly(attempts, r.used - 1, extract);
    VerdictEnds(attempts[..r.used], extract);
    assert attempts[..r.used][r.used - 1] == attempts[r.used - 1];
  }

  /** With a name known from the fake address nothing is sniffed. */
  predicate NotSniffed(r: Sniffed) {
    r.name.Some? && r.used == 0 && r.buffer == [] && !r.end
  }

  /** The loop stops at the first read that decides and has kept every byte read until then. Nothing
      is returned while no read has decided: the client may go on for ever. */
  method Sniff(attempts: seq<Attempt>, extract: Extractor) returns (r: Option<Sniffed>)
    ensures r.Some? ==> IsSniffed(attempts, extract, r.value)
    ensures r.None? ==> Undecided(attempts, |attempts|, extract)
  {
    var name: Option<Text> := None;
    var buffer: seq<byte> := [];
    var end, determined, readAttempts, i := false, false, 0, 0;
    while i < |attempts|
      invariant 0 <= i <= |attempts| && Undecided(attempts, i, extract)
      invariant buffer == BytesOf(attempts[..i]) && readAttempts == Blocked(attempts[..i]) <= READ_ATTEMPTS_LIMIT
      invariant !determined && !end && name == None
    {
      assert attempts[..i + 1][..i] == attempts[..i];
      i := i + 1;
      match attempts[i - 1] {
        case Closed =>
          end := true;
          return Some(Sniffed(name, buffer, end, i));
        case Data(bytes) =>
          buffer := buffer + bytes;
          if determined {
            continue;
          }
          if (|buffer| >= 1 && buffer[0] != 0x16) || (|buffer| >= 2 && buffer[1] != 0x03) {
            determined := true;
            return Some(Sniffed(name, buffer, end, i));
          }
          var hostname := extract(buffer);
          if hostname.Some? {
            name := hostname.value;
            determined := true;
            return Some(Sniffed(name, buffer, end, i));
          }
        case WouldBlock =>
          if determined || readAttempts >= READ_ATTEMPTS_LIMIT {
            return Some(Sniffed(name, buffer, end, i));
          }
          readAttempts := readAttempts + 1;
        case Failed =>
          return Some(Sniffed(name, buffer, end, i));
      }
    }
    assert attempts[..i] == attempts;
    r := None;
  }

  /** Bytes that start as a TLS handshake record are never taken for anything else: sniffing them ends with
      the parser's answer or without new bytes. */
  lemma TlsIsNeverRefused(attempts: seq<Attempt>, extract: Extractor, r: Sniffed)
    requires IsSniffed(attempts, extract, r)
    requires r.buffer != [] && r.buffer[0] == 0x16 && (|r.buffer| > 1 ==> r.buffer[1] == 0x03)
    ensures attempts[r.used - 1].Data? ==> extract(r.buffer) == Some(r.name)
  {
  }

  lemma {:induction false} BytesOfConcat(a: seq<Attempt>, b: seq<Attempt>)
    ensures BytesOf(a + b) == BytesOf(a) + BytesOf(b)
  {
    if b == [] {
      assert a + b == a;
    } else {
      var last := |b| - 1;
      assert (a + b)[..|a + b| - 1] == a + b[..last];
      BytesOfConcat(a, b[..last]);
    }
  }

  lemma {:induction false} NothingAfterClosed(attempts: seq<Attempt>)
    requires forall i :: 0 <= i < |attempts| ==> attempts[i].Closed?
    ensures BytesOf(attempts) == []
  {
    if attempts != [] {
      NothingAfterClosed(attempts[..|attempts| - 1]);
    }
  }

  /** What `handle_in_tcp_stream` puts on the tunnel: the header, the sniffed bytes, and then the rest
      of the client's stream unless that was seen to end. */
  function Wire(h: Header, sniffed: Sniffed, unread: seq<byte>): seq<byte>
    requires Fits(h.name) && Fits(h.tag)
  {
    HeaderBytes(h) + sniffed.buffer + (if sniffed.end then [] else unread)
  }

  /** When sniffing has seen the client close, the rest of the stream is empty. */
  lemma NothingUnread(attempts: seq<Attempt>, extract: Extractor, r: Sniffed)
    requires ClientScript(attempts) && (NotSniffed(r) || IsSniffed(attempts, extract, r))
    ensures r.used <= |attempts|
    ensures r.end ==> BytesOf(attempts[r.used..]) == []
  {
    if r.end {
      assert attempts[r.used - 1].Closed?;
      NothingAfterClosed(attempts[r.used..]);
    }
  }

  lemma ReadPlusUnread(attempts: seq<Attempt>, n: nat)
    requires n <= |attempts|
    ensures BytesOf(attempts) == BytesOf(attempts[..n]) + BytesOf(attempts[n..])
  {
    assert attempts[..n] + attempts[n..] == attempts;
    BytesOfConcat(attempts[..n], attempts[n..]);
  }

  /** The sniffed bytes and what is read later are the client's bytes, each once and in order. */
  lemma BufferPlusUnread(attempts: seq<Attempt>, extract: Extractor, r: Sniffed)
    requires ClientScript(attempts) && (NotSniffed(r) || IsSniffed(attempts, extract, r))
    ensures r.used <= |attempts|
    ensures r.buffer + (if r.end then [] else BytesOf(attempts[r.used..])) == BytesOf(attempts)
  {
    NothingUnread(attempts, extract, r);
    ReadPlusUnread(attempts, r.used);
    assert r.buffer == BytesOf(attempts[..r.used]);
  }

  /** However the client's stream is cut into reads, and however sniffing ends, the other end of the
      tunnel reads the destination, name and tag, and is left with exactly the client's bytes. */
  lemma StreamArrives(
      attempts: seq<Attempt>, extract: Extractor, r: Sniffed, destination: SocketAddress, tag: Option<Text>)
    requires ClientScript(attempts) && (NotSniffed(r) || IsSniffed(attempts, extract, r))
    requires Fits(r.name) && Fits(tag)
    ensures var h := Header(destination, r.name, tag);
            ParseHeader(Wire(h, r, BytesOf(attempts[r.used..]))) == Ok(Parsed(Normal(h), BytesOf(attempts)))
  {
    var h := Header(destination, r.name, tag);
    var unread := if r.end then [] else BytesOf(attempts[r.used..]);
    BufferPlusUnread(attempts, extract, r);
    Regroup(HeaderBytes(h), r.buffer, unread);
    HeaderRoundTrip(h, BytesOf(attempts));
  }

  /** The parser's answer stands whatever follows. */
  ghost predicate Settled(extract: Extractor) {
    forall bs: seq<byte>, more: seq<byte> :: extract(bs).Some? ==> extract(bs + more) == extract(bs)
  }

  /** Sniffing ended on the bytes themselves: they are not TLS, or the parser answered. */
  predicate OnContent(exit: Option<Exit>) {
    exit.Some? && (exit.value.NotTlsTraffic? || exit.value.Answered?)
  }

  ghost predicate SameBytesOf(a: seq<Attempt>, b: seq<Attempt>) {
    BytesOf(a) == BytesOf(b)
  }

  lemma ContentVerdict(attempts: seq<Attempt>, extract: Extractor, r: Sniffed)
    requires IsSniffed(attempts, extract, r) && OnContent(Verdict(attempts[..r.used], extract))
    ensures Verdict(attempts[..r.used], extract)
         == if NotTls(r.buffer) then Some(NotTlsTraffic)
            else if extract(r.buffer).Some? then Some(Answered(extract(r.buffer).value)) else None
    ensures r.buffer <= BytesOf(attempts)
  {
    ReadPlusUnread(attempts, r.used);
  }

  /** Two prefixes of one stream: what the parser says of them, and whether they look unlike TLS. */
  lemma PrefixesAgree(x: seq<byte>, y: seq<byte>, all: seq<byte>, extract: Extractor)
    requires Settled(extract) && x <= all && y <= all
    ensures extract(x).Some? && extract(y).Some? ==> extract(x) == extract(y)
    ensures NotTls(x) && !NotTls(y) && y != [] ==> y == [0x16]
  {
    assert all == x + all[|x|..] && all == y + all[|y|..];
    if extract(x).Some? && extract(y).Some? {
      assert extract(all) == extract(x) == extract(y);
    }
  }

  /** A cut ends on content only after some byte was read, since no read is empty. */
  lemma SomethingRead(attempts: seq<Attempt>, extract: Extractor, r: Sniffed)
    requires ClientScript(attempts) && IsSniffed(attempts, extract, r)
    requires OnContent(Verdict(attempts[..r.used], extract))
    ensures r.buffer != []
  {
    var last := attempts[..r.used][r.used - 1];
    assert last == attempts[r.used - 1];
  }

  /** With a parser whose answers stand, two cuts of one stream that both get an answer get the same
      name; and one can get an answer where the other finds traffic that is not TLS only if the parser
      answers on the first byte of a TLS record alone. */
  lemma SameNameForEveryCut(a: seq<Attempt>, b: seq<Attempt>, extract: Extractor, r: Sniffed, q: Sniffed)
    requires ClientScript(a) && ClientScript(b) && Settled(extract) && SameBytesOf(a, b)
    requires IsSniffed(a, extract, r) && IsSniffed(b, extract, q)
    requires OnContent(Verdict(a[..r.used], extract)) && OnContent(Verdict(b[..q.used], extract))
    ensures Verdict(a[..r.used], extract).value.Answered? && Verdict(b[..q.used], extract).value.Answered? ==>
              r.name == q.name
    ensures extract([0x16]) == None ==> Verdict(a[..r.used], extract) == Verdict(b[..q.used], extract)
  {
    ContentVerdict(a, extract, r);
    ContentVerdict(b, extract, q);
    SomethingRead(a, extract, r);
    SomethingRead(b, extract, q);
    PrefixesAgree(r.buffer, q.buffer, BytesOf(a), extract);
    PrefixesAgree(q.buffer, r.buffer, BytesOf(a), extract);
  }

  lemma OneRead(bytes: seq<byte>)
    ensures BytesOf([Data(bytes)]) == bytes
  {
    assert [Data(bytes)][..0] == [];
  }

  lemma TwoReads(x: seq<byte>, y: seq<byte>)
    ensures BytesOf([Data(x), Data(y)]) == x + y
  {
    OneRead(x);
    assert [Data(x), Data(y)][..1] == [Data(x)];
  }

  /** With a parser that does answer there, the two cuts of a record's first byte and another one do
      end differently. */
  lemma EarlyAnswerDiffers(extract: Extractor) returns (a: seq<Attempt>, b: seq<Attempt>, r: Sniffed, q: Sniffed)
    requires extract([0x16]).Some?
    ensures ClientScript(a) && ClientScript(b) && SameBytesOf(a, b)
    ensures IsSniffed(a, extract, r) && IsSniffed(b, extract, q)
    ensures Verdict(a[..r.used], extract) == Some(Answered(extract([0x16]).value))
    ensures Verdict(b[..q.used], extract) == Some(NotTlsTraffic)
  {
    a, b := [Data([0x16]), Data([0x00])], [Data([0x16, 0x00])];
    assert a[..1] == [Data([0x16])] && b[..1] == b;
    OneRead([0x16]);
    OneRead([0x16, 0x00]);
    TwoReads([0x16], [0x00]);
    r := Sniffed(extract([0x16]).value, [0x16], false, 1);
    q := Sniffed(None, [0x16, 0x00], false, 1);
  }

  /** A name is the parser's answer about everything read, and about no shorter read was there one; with
      a parser whose answers stand, it is its answer about the client's whole stream. */
  lemma AnswerIsEarliest(attempts: seq<Attempt>, extract: Extractor, r: Sniffed)
    requires IsSniffed(attempts, extract, r) && r.name.Some?
    ensures !NotTls(r.buffer) && extract(r.buffer) == Some(r.name)
    ensures forall j :: 0 < j < r.used && attempts[j - 1].Data? ==>
              !NotTls(BytesOf(attempts[..j])) && extract(BytesOf(attempts[..j])) == None
    ensures Settled(extract) ==> extract(BytesOf(attempts)) == Some(r.name)
  {
    forall j | 0 < j < r.used && attempts[j - 1].Data?
      ensures !NotTls(BytesOf(attempts[..j])) && extract(BytesOf(attempts[..j])) == None
    {
      assert Verdict(attempts[..j], extract) == None;
      assert attempts[..j][j - 1] == attempts[j - 1];
    }
    ReadPlusUnread(attempts, r.used);
  }
}
