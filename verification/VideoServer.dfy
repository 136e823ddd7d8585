// The data handler of one device media connection: it appends each TCP chunk to
// a buffer and drains whole packets from it, resynchronising on the 0x12 flag.
module VideoServer {
  import opened Bytes
  import opened MediaPacket
  import opened Optional

  datatype Gap = Gap(expected: nat, got: nat, lost: nat)

  // The state the handler keeps. fed is every packet handed to the stream
  // registry, in order; a refused connection is destroyed and gets no more data.
  datatype Conn = Conn(
    buffer: seq<Byte>, lastSeq: int, imei: Option<string>,
    fed: seq<Packet>, gaps: seq<Gap>, refused: bool)

  const OPENED := Conn([], -1, None, [], [], false)

  // Whether the registry opens a stream for an IMEI is its own affair.
  type Admission = string -> bool

  // ----- one packet -----

  // The wrap-around difference between the number seen and the one expected.
  function Lost(lastSeq: int, packetNo: nat): nat {
    (packetNo - (lastSeq + 1) % 0x1_0000) % 0x1_0000
  }

  function NoteGap(gaps: seq<Gap>, lastSeq: int, packetNo: nat): seq<Gap> {
    if lastSeq >= 0 && 0 < Lost(lastSeq, packetNo) < 1000
    then gaps + [Gap((lastSeq + 1) % 0x1_0000, packetNo, Lost(lastSeq, packetNo))]
    else gaps
  }

  // If k packets are missing after number a, the count is k, modulo 2^16.
  lemma LostCounts(a: nat, k: nat)
    requires a < 0x1_0000
    ensures Lost(a, (a + 1 + k) % 0x1_0000) == k % 0x1_0000
  {
  }

  // The first packet binds the connection to its IMEI, or has it refused.
  function Bind(c: Conn, p: Packet, admits: Admission): Conn {
    if c.imei.None? then c.(imei := Some(p.imei), refused := !admits(p.imei)) else c
  }

  function Deliver(c: Conn, p: Packet): Conn
    requires TotalLength(p) <= |c.buffer|
  {
    c.(buffer := c.buffer[TotalLength(p)..], lastSeq := p.packetNo,
       fed := c.fed + [p], gaps := NoteGap(c.gaps, c.lastSeq, p.packetNo))
  }

  // ----- draining the buffer -----

  function Align(buf: seq<Byte>): (aligned: seq<Byte>)
    ensures aligned == [] || aligned[0] == FLAG
    ensures |aligned| <= |buf|
  {
    var i := IndexOf(buf, FLAG, 0);
    if i == -1 then [] else buf[i..]
  }

  function SkipOne(buf: seq<Byte>): seq<Byte> {
    if buf == [] then [] else buf[1..]
  }

  datatype Progress = Stop(conn: Conn) | Go(conn: Conn)

  // One turn of the loop: align, parse, and either wait for more or go on.
  function Step(c: Conn, admits: Admission): (next: Progress)
    ensures next.Go? ==> |next.conn.buffer| < |c.buffer|
    ensures next.Go? ==> !next.conn.refused
  {
    var b := Align(c.buffer);
    var aligned := c.(buffer := b);
    if b == [] then Stop(aligned)
    else
      match Parse(b)
      case Invalid => Go(aligned.(buffer := SkipOne(b)))
      case Incomplete(_) => Stop(aligned)
      case Parsed(p) =>
        ParseStable(b, []);
        var bound := Bind(aligned, p, admits);
        if bound.refused then Stop(bound) else Go(Deliver(bound, p))
  }

  function Drain(c: Conn, admits: Admission): Conn
    decreases |c.buffer|
  {
    match Step(c, admits)
    case Stop(d) => d
    case Go(d) => Drain(d, admits)
  }

  function Longer(c: Conn, more: seq<Byte>): Conn {
    c.(buffer := c.buffer + more)
  }

  // One data event.
  function Receive(c: Conn, chunk: seq<Byte>, admits: Admission): Conn {
    if c.refused then c else Drain(Longer(c, chunk), admits)
  }

  function ReceiveAll(c: Conn, chunks: seq<seq<Byte>>, admits: Admission): Conn
    decreases |chunks|
  {
    if chunks == [] then c
    else ReceiveAll(Receive(c, chunks[0], admits), chunks[1..], admits)
  }

  // ----- chunk independence -----

  // A refused connection may hold more or less unread data; nothing else differs.
  ghost predicate SameOutcome(a: Conn, b: Conn) {
    a == b || (a.refused && b.refused && a.(buffer := []) == b.(buffer := []))
  }

  lemma FirstFlag(buf: seq<Byte>, more: seq<Byte>)
    ensures var i, k := IndexOf(buf, FLAG, 0), IndexOf(more, FLAG, 0);
            IndexOf(buf + more, FLAG, 0) == if i >= 0 then i else if k >= 0 then |buf| + k else -1
  {
    var all := buf + more;
    var i, j, k := IndexOf(buf, FLAG, 0), IndexOf(all, FLAG, 0), IndexOf(more, FLAG, 0);
    assert forall t :: 0 <= t < |buf| ==> all[t] == buf[t];
    assert forall t :: 0 <= t < |more| ==> all[|buf| + t] == more[t];
    assert i >= 0 ==> all[i] == FLAG;
    assert j >= 0 ==> if j < |buf| then buf[j] == FLAG else more[j - |buf|] == FLAG;
    assert k >= 0 ==> all[|buf| + k] == FLAG;
  }

  lemma AlignMore(buf: seq<Byte>, more: seq<Byte>)
    ensures Align(buf + more) == if Align(buf) == [] then Align(more) else Align(buf) + more
  {
    FirstFlag(buf, more);
    var i, k := IndexOf(buf, FLAG, 0), IndexOf(more, FLAG, 0);
    if i >= 0 {
      assert (buf + more)[i..] == buf[i..] + more;
    } else if k >= 0 {
      assert (buf + more)[|buf| + k..] == more[k..];
    }
  }

  lemma AlignFixed(buf: seq<Byte>)
    requires buf == [] || buf[0] == FLAG
    ensures Align(buf) == buf
  {
  }

  lemma AlignedBy(buf: seq<Byte>)
    ensures var i := IndexOf(buf, FLAG, 0);
            && Align(buf) == (if i == -1 then [] else buf[i..])
            && (buf != [] && buf[0] == FLAG ==> Align(buf) == buf)
  {
  }

  // What a step does depends on the aligned buffer only.
  lemma StepAligned(c: Conn, buf: seq<Byte>, admits: Admission)
    requires Align(buf) == Align(c.buffer)
    ensures Step(c.(buffer := buf), admits) == Step(c, admits)
  {
  }

  // A step with more data behind it goes on as it would have without, and where
  // it would have stopped it does what it does after stopping.
  lemma StepMore(c: Conn, more: seq<Byte>, admits: Admission)
    requires !c.refused
    ensures var s, t := Step(c, admits), Step(Longer(c, more), admits);
            && (s.Go? ==> t == Go(Longer(s.conn, more)))
            && (s.Stop? && s.conn.refused ==> t == Stop(Longer(s.conn, more)))
            && (s.Stop? && !s.conn.refused ==> t == Step(Longer(s.conn, more), admits))
  {
    hide Parse, Align;
    var b := Align(c.buffer);
    AlignMore(c.buffer, more);
    AlignFixed(b);
    AlignMore(b, more);
    if b == [] {
      assert [] + more == more;
    } else {
      AlignedNeverInvalid(b);
      if Parse(b).Parsed? {
        ParseStable(b, more);
        ParseStable(b, []);
      } else {
        StepAligned(Longer(c, more), b + more, admits);
      }
    }
  }

  // Data that arrives after draining has the effect it would have had before.
  lemma {:induction false} Absorb(c: Conn, more: seq<Byte>, admits: Admission)
    requires !c.refused
    ensures SameOutcome(Receive(Drain(c, admits), more, admits), Drain(Longer(c, more), admits))
    decreases |c.buffer|
  {
    hide Step;
    StepMore(c, more, admits);
    var s := Step(c, admits);
    if s.Go? {
      Absorb(s.conn, more, admits);
    }
  }

  lemma {:induction false} SameLater(a: Conn, b: Conn, chunks: seq<seq<Byte>>, admits: Admission)
    requires SameOutcome(a, b)
    decreases |chunks|
    ensures SameOutcome(ReceiveAll(a, chunks, admits), ReceiveAll(b, chunks, admits))
  {
    if chunks != [] {
      SameLater(Receive(a, chunks[0], admits), Receive(b, chunks[0], admits), chunks[1..], admits);
    }
  }

  lemma {:induction false} ChunksAfterDrain(c: Conn, chunks: seq<seq<Byte>>, admits: Admission)
    requires !c.refused
    ensures SameOutcome(ReceiveAll(Drain(c, admits), chunks, admits), Drain(Longer(c, Concat(chunks)), admits))
    decreases |chunks|
  {
    hide Step;
    if chunks == [] {
      assert Longer(c, []) == c;
    } else {
      var next := Longer(c, chunks[0]);
      Absorb(c, chunks[0], admits);
      SameLater(Receive(Drain(c, admits), chunks[0], admits), Drain(next, admits), chunks[1..], admits);
      ChunksAfterDrain(next, chunks[1..], admits);
      assert next.buffer + Concat(chunks[1..]) == c.buffer + Concat(chunks);
    }
  }

  // However a stream is cut into chunks, the outcome is that of receiving it at
  // once: same packets, same gaps, same binding, same residual buffer.
  lemma ChunkIndependence(chunks: seq<seq<Byte>>, admits: Admission)
    ensures SameOutcome(ReceiveAll(OPENED, chunks, admits), Receive(OPENED, Concat(chunks), admits))
  {
    assert Drain(OPENED, admits) == OPENED;
    ChunksAfterDrain(OPENED, chunks, admits);
  }

  lemma AnyTwoCuttings(one: seq<seq<Byte>>, two: seq<seq<Byte>>, admits: Admission)
    requires Concat(one) == Concat(two)
    ensures SameOutcome(ReceiveAll(OPENED, one, admits), ReceiveAll(OPENED, two, admits))
  {
    ChunkIndependence(one, admits);
    ChunkIndependence(two, admits);
  }

  // ----- what a drained connection looks like -----

  function GapsOf(packets: seq<Packet>): seq<Gap> {
    if |packets| <= 1 then []
    else
      var n := |packets| - 1;
      NoteGap(GapsOf(packets[..n]), packets[n - 1].packetNo, packets[n].packetNo)
  }

  // After number a, number b leaves out k: fewer than a thousand, and not none.
  ghost predicate Skips(a: nat, b: nat, k: nat) {
    1 <= k < 1000 && (a + 1 + k) % 0x1_0000 == b % 0x1_0000
  }

  ghost predicate GapIs(packets: seq<Packet>, i: nat, g: Gap) {
    && 1 <= i < |packets| && Skips(packets[i - 1].packetNo, packets[i].packetNo, g.lost)
    && g.expected == (packets[i - 1].packetNo + 1) % 0x1_0000 && g.got == packets[i].packetNo
  }

  lemma SkipsLost(a: nat, b: nat, k: nat)
    ensures Skips(a, b, k) <==> 1 <= k < 1000 && Lost(a, b) == k
  {
    var m, n := 0x1_0000, a + 1;
    assert n == m * (n / m) + n % m && b == m * (b / m) + b % m;
    if k < m {
      assert (n + k) % m == (n % m + k) % m;
      assert (b - n % m) % m == (b % m - n % m) % m;
    }
  }

  lemma NotesExactly(gaps: seq<Gap>, a: nat, b: nat)
    ensures var k := Lost(a, b);
            NoteGap(gaps, a, b) == if 1 <= k < 1000 then gaps + [Gap((a + 1) % 0x1_0000, b, k)] else gaps
  {
  }

  // The log of the first n packets has one gap for every packet that skips numbers,
  // in order, with what was expected, what came and how many were lost.
  ghost predicate GapsAt(packets: seq<Packet>, n: nat, gaps: seq<Gap>, at: seq<nat>) {
    && |at| == |gaps|
    && (forall x, y :: 0 <= x < y < |at| ==> at[x] < at[y])
    && (forall x :: 0 <= x < |at| ==> at[x] < n && GapIs(packets, at[x], gaps[x]))
    && (forall i: nat, g: Gap :: i < n && GapIs(packets, i, g) ==> i in at)
  }

  lemma NextGap(packets: seq<Packet>, n: nat, g: Gap)
    requires 1 <= n < |packets|
    ensures var a, b := packets[n - 1].packetNo, packets[n].packetNo;
            GapIs(packets, n, g) <==>
            1 <= Lost(a, b) < 1000 && g == Gap((a + 1) % 0x1_0000, b, Lost(a, b))
  {
    SkipsLost(packets[n - 1].packetNo, packets[n].packetNo, g.lost);
    hide Skips, Lost;
  }

  lemma AddGap(packets: seq<Packet>, n: nat, gaps: seq<Gap>, at: seq<nat>, g: Gap)
    requires GapsAt(packets, n, gaps, at) && GapIs(packets, n, g)
    ensures GapsAt(packets, n + 1, gaps + [g], at + [n])
  {
    hide GapIs;
  }

  lemma GapStep(packets: seq<Packet>, n: nat, gaps: seq<Gap>, at: seq<nat>) returns (more: seq<nat>)
    requires 1 <= n < |packets| && GapsAt(packets, n, gaps, at)
    ensures GapsAt(packets, n + 1, NoteGap(gaps, packets[n - 1].packetNo, packets[n].packetNo), more)
  {
    var a, b := packets[n - 1].packetNo, packets[n].packetNo;
    NotesExactly(gaps, a, b);
    forall g: Gap
      ensures GapIs(packets, n, g) <==> 1 <= Lost(a, b) < 1000 && g == Gap((a + 1) % 0x1_0000, b, Lost(a, b))
    {
      NextGap(packets, n, g);
    }
    hide Lost, NoteGap, GapIs, GapsAt;
    if 1 <= Lost(a, b) < 1000 {
      AddGap(packets, n, gaps, at, Gap((a + 1) % 0x1_0000, b, Lost(a, b)));
      more := at + [n];
    } else {
      NoGap(packets, n, gaps, at);
      more := at;
    }
  }

  lemma {:induction false} GapsUpTo(packets: seq<Packet>, n: nat) returns (at: seq<nat>)
    requires 1 <= n <= |packets|
    ensures GapsAt(packets, n, GapsOf(packets[..n]), at)
  {
    at := [];
    if n > 1 {
      hide NoteGap, GapsAt;
      var m := n - 1;
      at := GapsUpTo(packets, m);
      at := GapStep(packets, m, GapsOf(packets[..m]), at);
      assert packets[..n][..m] == packets[..m];
    }
  }

  lemma NoGap(packets: seq<Packet>, n: nat, gaps: seq<Gap>, at: seq<nat>)
    requires GapsAt(packets, n, gaps, at) && forall g :: !GapIs(packets, n, g)
    ensures GapsAt(packets, n + 1, gaps, at)
  {
    hide GapIs;
  }

  lemma GapsExactly(packets: seq<Packet>) returns (at: seq<nat>)
    ensures GapsAt(packets, |packets|, GapsOf(packets), at)
  {
    at := [];
    if packets != [] {
      assert packets[..|packets|] == packets;
      at := GapsUpTo(packets, |packets|);
    }
  }

  // The log and the sequence state are those of the packets fed, the binding is
  // to the first of them, and a refused connection fed none.
  ghost predicate Consistent(c: Conn, admits: Admission) {
    && c.gaps == GapsOf(c.fed)
    && c.lastSeq == (if c.fed == [] then -1 else c.fed[|c.fed| - 1].packetNo)
    && (c.refused ==> c.fed == [] && c.imei.Some? && !admits(c.imei.value))
    && (!c.refused ==>
          (c.imei.Some? <==> c.fed != []) &&
          (c.imei.Some? ==> c.imei.value == c.fed[0].imei && admits(c.imei.value)))
  }

  // What is left unread is the start of one packet: less than a header and a body.
  ghost predicate Settled(c: Conn) {
    c.refused || c.buffer == []
    || (c.buffer[0] == FLAG && Parse(c.buffer).Incomplete? && |c.buffer| < HEADER_SIZE + 0x1_0000)
  }

  lemma StepSettles(c: Conn, admits: Admission)
    requires Consistent(c, admits) && !c.refused
    ensures Consistent(Step(c, admits).conn, admits)
    ensures Step(c, admits).Stop? ==> Settled(Step(c, admits).conn)
  {
    var b := Align(c.buffer);
    if b != [] {
      AlignedNeverInvalid(b);
      if Parse(b).Parsed? {
        var p := Parse(b).packet;
        ParseStable(b, []);
        var bound := Bind(c.(buffer := b), p, admits);
        if !bound.refused {
          DeliverConsistent(bound, p, admits);
        }
      } else {
        IncompleteBound(b);
      }
    }
  }

  lemma {:induction false} DrainSettles(c: Conn, admits: Admission)
    requires Consistent(c, admits) && !c.refused
    ensures Consistent(Drain(c, admits), admits) && Settled(Drain(c, admits))
    decreases |c.buffer|
  {
    hide Step, Consistent, Settled;
    StepSettles(c, admits);
    if Step(c, admits).Go? {
      DrainSettles(Step(c, admits).conn, admits);
    }
  }

  lemma DeliverConsistent(c: Conn, p: Packet, admits: Admission)
    requires TotalLength(p) <= |c.buffer| && !c.refused
    requires c.gaps == GapsOf(c.fed)
    requires c.lastSeq == (if c.fed == [] then -1 else c.fed[|c.fed| - 1].packetNo)
    requires c.imei.Some? && admits(c.imei.value)
    requires c.imei.value == if c.fed == [] then p.imei else c.fed[0].imei
    ensures Consistent(Deliver(c, p), admits)
  {
    var fed := c.fed + [p];
    assert fed[..|c.fed|] == c.fed;
  }

  // After every data event of every run.
  lemma {:induction false} RunSettles(c: Conn, chunks: seq<seq<Byte>>, admits: Admission)
    requires Consistent(c, admits) && Settled(c)
    ensures Consistent(ReceiveAll(c, chunks, admits), admits) && Settled(ReceiveAll(c, chunks, admits))
    decreases |chunks|
  {
    if chunks != [] {
      if !c.refused {
        DrainSettles(Longer(c, chunks[0]), admits);
      }
      RunSettles(Receive(c, chunks[0], admits), chunks[1..], admits);
    }
  }

  // So the log of every run is that of the packets it fed.
  lemma RunGaps(chunks: seq<seq<Byte>>, admits: Admission) returns (at: seq<nat>)
    ensures var c := ReceiveAll(OPENED, chunks, admits); GapsAt(c.fed, |c.fed|, c.gaps, at)
  {
    RunSettles(OPENED, chunks, admits);
    hide ReceiveAll;
    at := GapsExactly(ReceiveAll(OPENED, chunks, admits).fed);
  }

  // ----- the stream round trip -----

  // A built packet with flag-free junk in front of it.
  datatype Item = Item(junk: seq<Byte>, fields: Fields)

  ghost predicate Sendable(items: seq<Item>) {
    forall i :: 0 <= i < |items| ==> FLAG !in items[i].junk && Buildable(items[i].fields)
  }

  function Stream(items: seq<Item>, tail: seq<Byte>): seq<Byte> {
    if items == [] then tail
    else
      items[0].junk
      + (if Buildable(items[0].fields) then Wire(items[0].fields) else [])
      + Stream(items[1..], tail)
  }

  function Sent(items: seq<Item>): (packets: seq<Packet>)
    requires Sendable(items)
    ensures |packets| == |items|
  {
    if items == [] then [] else [Received(items[0].fields)] + Sent(items[1..])
  }

  lemma {:induction false} DrainStream(c: Conn, items: seq<Item>, tail: seq<Byte>, admits: Admission)
    requires Sendable(items) && FLAG !in tail && !c.refused
    requires c.imei.None? && items != [] ==> admits(Received(items[0].fields).imei)
    requires c.buffer == Stream(items, tail)
    ensures var d := Drain(c, admits);
            d.buffer == [] && !d.refused && d.fed == c.fed + Sent(items)
    decreases |items|
  {
    hide Wire, Received, Step;
    if items == [] {
      StepTail(c, tail, admits);
      assert c.fed + [] == c.fed;
    } else {
      var f, rest := items[0].fields, Stream(items[1..], tail);
      StepBuilt(c, items[0].junk, f, rest, admits);
      var next := Step(c, admits).conn;
      assert Drain(c, admits) == Drain(next, admits);
      DrainStream(next, items[1..], tail, admits);
      Regroup(c.fed, [Received(f)], Sent(items[1..]));
    }
  }

  lemma Regroup(a: seq<Packet>, b: seq<Packet>, c: seq<Packet>)
    ensures a + b + c == a + (b + c)
  {
  }

  lemma StepTail(c: Conn, tail: seq<Byte>, admits: Admission)
    requires FLAG !in tail && c.buffer == tail
    ensures Step(c, admits) == Stop(c.(buffer := []))
  {
  }

  lemma StepBuilt(c: Conn, junk: seq<Byte>, f: Fields, rest: seq<Byte>, admits: Admission)
    requires FLAG !in junk && Buildable(f) && !c.refused
    requires c.imei.None? ==> admits(Received(f).imei)
    requires c.buffer == junk + Wire(f) + rest
    ensures var s := Step(c, admits);
            s.Go? && !s.conn.refused && s.conn.imei.Some?
            && s.conn.buffer == rest && s.conn.fed == c.fed + [Received(f)]
  {
    hide Wire, Parse, Received, Align;
    AlignBuilt(junk, f, rest);
    assert c.buffer == junk + (Wire(f) + rest);
    ParseBuilt(f, rest);
    BuiltLength(f, rest);
  }

  lemma BuiltLength(f: Fields, rest: seq<Byte>)
    requires Buildable(f)
    ensures TotalLength(Received(f)) == |Wire(f)|
    ensures (Wire(f) + rest)[TotalLength(Received(f))..] == rest
  {
  }

  lemma AlignBuilt(junk: seq<Byte>, f: Fields, rest: seq<Byte>)
    requires FLAG !in junk && Buildable(f)
    ensures Align(junk + (Wire(f) + rest)) == Wire(f) + rest
    ensures Wire(f) != []
  {
    var b := Wire(f) + rest;
    assert Align(junk) == [];
    AlignMore(junk, b);
    HeaderParts(f);
    AlignFixed(b);
  }

  // Built packets with flag-free junk before, between and after them, in any
  // chunks, are all recovered, in order, and nothing is left over.
  lemma StreamRoundTrip(items: seq<Item>, tail: seq<Byte>, chunks: seq<seq<Byte>>, admits: Admission)
    requires Sendable(items) && FLAG !in tail
    requires items != [] ==> admits(Received(items[0].fields).imei)
    requires Concat(chunks) == Stream(items, tail)
    ensures var c := ReceiveAll(OPENED, chunks, admits);
            c.fed == Sent(items) && c.buffer == [] && !c.refused
  {
    ChunkIndependence(chunks, admits);
    DrainStream(OPENED.(buffer := Stream(items, tail)), items, tail, admits);
    assert [] + Concat(chunks) == Stream(items, tail);
    assert [] + Sent(items) == Sent(items);
  }

  // With in-range fields, field by field.
  lemma {:induction false} SentFields(items: seq<Item>, i: nat)
    requires Sendable(items) && i < |items| && InRange(items[i].fields)
    ensures SameFields(Sent(items)[i], items[i].fields)
  {
    if i == 0 {
      ParseBuilt(items[0].fields, []);
      FieldsRoundTrip(items[0].fields, []);
    } else {
      SentFields(items[1..], i - 1);
    }
  }

  // ----- the handler -----

  class VideoConnection {
    var buffer: seq<Byte>
    var lastSeq: int
    var imei: Option<string>
    var fed: seq<Packet>
    var gaps: seq<Gap>
    var refused: bool
    const admits: Admission

    ghost function View(): Conn
      reads this
    {
      Conn(buffer, lastSeq, imei, fed, gaps, refused)
    }

    constructor (admits: Admission)
      ensures View() == OPENED && this.admits == admits
    {
      buffer, lastSeq, imei, fed, gaps, refused := [], -1, None, [], [], false;
      this.admits := admits;
    }

    // The body of the loop; false where the program leaves it.
    method Turn() returns (go: bool)
      requires |buffer| > 0 && !refused
      modifies this
      ensures View() == Step(old(View()), admits).conn
      ensures go == Step(old(View()), admits).Go?
    {
      hide Parse, Align;
      AlignedBy(buffer);
      if buffer[0] != FLAG {
        var i := IndexOf(buffer, FLAG, 0);
        if i == -1 {
          buffer := [];
          return false;
        }
        buffer := buffer[i..];
      }
      var res := Parse(buffer);
      if res.Invalid? {
        buffer := SkipOne(buffer);
        return true;
      }
      if res.Incomplete? {
        return false;
      }
      ParseStable(buffer, []);
      hide Bind, Deliver;
      go := Accept(res.packet);
    }

    // A whole packet at the head of the buffer; false where it is refused.
    method Accept(p: Packet) returns (go: bool)
      requires TotalLength(p) <= |buffer| && !refused
      modifies this
      ensures var bound := Bind(old(View()), p, admits);
              go == !bound.refused && View() == if go then Deliver(bound, p) else bound
    {
      if imei.None? {
        imei := Some(p.imei);
        if !admits(p.imei) {
          refused := true;
          return false;
        }
      }
      if lastSeq >= 0 {
        var expected := (lastSeq + 1) % 0x1_0000;
        var lost := (p.packetNo - expected) % 0x1_0000;
        if 0 < lost < 1000 {
          gaps := gaps + [Gap(expected, p.packetNo, lost)];
        }
      }
      lastSeq := p.packetNo;
      fed := fed + [p];
      buffer := buffer[TotalLength(p)..];
      return true;
    }

    // The socket's data event.
    method OnData(chunk: seq<Byte>)
      modifies this
      ensures View() == Receive(old(View()), chunk, admits)
    {
      hide Step;
      if refused {
        return;
      }
      buffer := buffer + chunk;
      while |buffer| > 0
        invariant !refused
        invariant Drain(View(), admits) == Receive(old(View()), chunk, admits)
        decreases |buffer|
      {
        var go := Turn();
        if !go {
          return;
        }
      }
      StepEmpty(View(), admits);
    }
  }

  lemma StepEmpty(c: Conn, admits: Admission)
    requires c.buffer == []
    ensures Step(c, admits) == Stop(c)
  {
  }
}
