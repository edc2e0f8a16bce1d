/** Cutting a stream of bytes that arrives in chunks into packets. */
module Framing {
  import opened Events
  import opened WireFormat
  import Unmarshaller
  import WireRoundTrip

  /** A packet's type byte and body; the decoders of bodies are in WireFormat. */
  datatype Packet = Packet(pktType: byte, body: seq<byte>)

  const HEADER := 5

  predicate Known(b: byte) {
    b == 0 || b == 1 || b == 2 || b == 100 || b == 101
  }

  function Frame(p: Packet): seq<byte> {
    [p.pktType] + EncInt(|p.body|) + p.body
  }

  predicate Sendable(p: Packet) {
    Known(p.pktType) && |p.body| < INT_LIMIT
  }

  // ---------------------------------------------------------------- one packet

  /** A packet and how many bytes it took, not yet enough bytes, or an exception. */
  datatype Outcome = Got(p: Packet, size: nat) | Wait | Unknown

  function Length(s: seq<byte>): int32
    requires |s| >= HEADER
  {
    Signed(Unsigned(s[1..HEADER]))
  }

  /** The length is compared as an unsigned number: a negative one is never reached. */
  function Next(s: seq<byte>): (o: Outcome)
    ensures o.Got? ==> HEADER <= o.size <= |s|
  {
    if |s| < 1 then Wait
    else if !Known(s[0]) then Unknown
    else if |s| < HEADER then Wait
    else if Length(s) < 0 || |s| - HEADER < Length(s) then Wait
    else Got(Packet(s[0], s[HEADER..HEADER + Length(s)]), HEADER + Length(s))
  }

  lemma NextOfFrame(p: Packet, more: seq<byte>)
    requires Sendable(p)
    ensures Next(Frame(p) + more) == Got(p, |Frame(p)|)
  {
    var s := Frame(p) + more;
    hide EncInt, Unsigned, Bytes;
    assert s[1..HEADER] == EncInt(|p.body|);
    LengthBack(|p.body|);
    assert s[HEADER..HEADER + |p.body|] == p.body;
  }

  lemma LengthBack(n: nat)
    requires n < INT_LIMIT
    ensures Signed(Unsigned(EncInt(n))) == n
  {
    WireRoundTrip.IntBack(EncInt(n), 0, n);
  }

  /** More bytes do not change a decision already taken. */
  lemma NextMore(s: seq<byte>, more: seq<byte>)
    ensures Next(s) != Wait ==> Next(s + more) == Next(s)
  {
    hide Unsigned;
    if |s| >= HEADER {
      assert (s + more)[1..HEADER] == s[1..HEADER];
      if 0 <= Length(s) <= |s| - HEADER {
        assert (s + more)[HEADER..HEADER + Length(s)] == s[HEADER..HEADER + Length(s)];
      }
    }
  }

  // ---------------------------------------------------------------- all packets

  /** The packets at the front of a buffer, what is left, and whether an exception ended it. */
  datatype Cut = Cut(pkts: seq<Packet>, rest: seq<byte>, failed: bool)

  function Push(p: Packet, c: Cut): Cut {
    c.(pkts := [p] + c.pkts)
  }

  function CutAll(s: seq<byte>): Cut
    decreases |s|
  {
    match Next(s)
    case Wait => Cut([], s, false)
    case Unknown => Cut([], s, true)
    case Got(p, n) => Push(p, CutAll(s[n..]))
  }

  class BufferedPacketUnmarshaller {
    var buffer: seq<byte>

    constructor ()
      ensures buffer == []
    {
      buffer := [];
    }

    method UnmarshalOne() returns (o: Outcome)
      modifies this
      ensures o == Next(old(buffer))
      ensures buffer == if o.Got? then old(buffer)[o.size..] else old(buffer)
    {
      hide Unsigned;
      var processed := 0;
      if |buffer| - processed < 1 { return Wait; }
      if !Known(buffer[0]) { return Unknown; }
      var pktType := buffer[0];
      processed := processed + 1;
      if |buffer| - processed < 4 { return Wait; }
      var pktLength := Signed(Unsigned(buffer[processed..processed + 4]));
      processed := processed + 4;
      if pktLength < 0 || |buffer| - processed < pktLength { return Wait; }
      var pkt := Packet(pktType, buffer[processed..processed + pktLength]);
      processed := processed + pktLength;
      buffer := buffer[processed..];
      return Got(pkt, processed);
    }

    /** When an exception ends the loop, the packets unmarshalled before it are lost with it. */
    method UnmarshalAll() returns (pkts: seq<Packet>, failed: bool)
      modifies this
      ensures var c := CutAll(old(buffer)); buffer == c.rest && failed == c.failed && pkts == if failed then [] else c.pkts
    {
      hide Next;
      pkts := [];
      ghost var c := CutAll(buffer);
      while true
        invariant c == Cut(pkts + CutAll(buffer).pkts, CutAll(buffer).rest, CutAll(buffer).failed)
        decreases |buffer|
      {
        var o := UnmarshalOne();
        match o {
          case Wait => return pkts, false;
          case Unknown => return [], true;
          case Got(p, _) => pkts := pkts + [p];
        }
      }
    }

    method Unmarshal(bytes: seq<byte>) returns (pkts: seq<Packet>, failed: bool)
      modifies this
      ensures var c := CutAll(old(buffer) + bytes); buffer == c.rest && failed == c.failed && pkts == if failed then [] else c.pkts
    {
      buffer := buffer + bytes;
      pkts, failed := UnmarshalAll();
    }
  }

  // ---------------------------------------------------------------- chunks

  /** What comes out of a run over chunks: the packets handed over, the buffer at the end,
      and whether an exception was thrown. The connection is not used after one. */
  function Feed(buffer: seq<byte>, chunks: seq<seq<byte>>): Cut
    decreases |chunks|
  {
    if chunks == [] then Cut([], buffer, false)
    else
      var c := CutAll(buffer + chunks[0]);
      if c.failed then Cut([], c.rest, true)
      else
        Then(c, Feed(c.rest, chunks[1..]))
  }

  function Joined(chunks: seq<seq<byte>>): seq<byte> {
    if chunks == [] then [] else chunks[0] + Joined(chunks[1..])
  }

  /** One cut after another. */
  function Then(c: Cut, d: Cut): Cut {
    d.(pkts := c.pkts + d.pkts)
  }

  /** Cutting in two goes: first the front, then what is left of it with the rest. */
  lemma {:induction false} CutInTwo(s: seq<byte>, more: seq<byte>)
    ensures CutAll(s).failed ==> CutAll(s + more) == CutAll(s).(rest := CutAll(s).rest + more)
    ensures !CutAll(s).failed ==> CutAll(s + more) == Then(CutAll(s), CutAll(CutAll(s).rest + more))
    decreases |s|
  {
    hide Next;
    NextMore(s, more);
    match Next(s)
    case Wait => assert [] + CutAll(s + more).pkts == CutAll(s + more).pkts;
    case Unknown =>
    case Got(p, n) =>
      CutInTwo(s[n..], more);
      assert (s + more)[n..] == s[n..] + more;
      var c := CutAll(s[n..]);
      var d := CutAll(c.rest + more);
      assert [p] + (c.pkts + d.pkts) == [p] + c.pkts + d.pkts;
  }

  /** What an exception leaves at the front of the buffer, or a quiet end. */
  lemma {:induction false} CutEnds(s: seq<byte>)
    ensures Next(CutAll(s).rest) == if CutAll(s).failed then Unknown else Wait
    decreases |s|
  {
    hide Next;
    match Next(s)
    case Wait =>
    case Unknown =>
    case Got(p, n) => CutEnds(s[n..]);
  }

  /** Main result: an exception is thrown whatever the chunks or not at all; when none is, the
      packets and the buffer do not depend on the chunks; when one is, what was handed over
      before is a beginning of the stream's packets. */
  lemma {:induction false} ChunkingIndependence(buffer: seq<byte>, chunks: seq<seq<byte>>)
    requires Next(buffer) == Wait
    ensures var all := CutAll(buffer + Joined(chunks)); var fed := Feed(buffer, chunks);
            fed.failed == all.failed && fed.pkts <= all.pkts && (!all.failed ==> fed == all)
    decreases |chunks|
  {
    hide Next, CutAll;
    if chunks == [] {
      assert buffer + Joined(chunks) == buffer;
      CutOfWaiting(buffer);
    } else {
      var s, more := buffer + chunks[0], Joined(chunks[1..]);
      assert buffer + Joined(chunks) == s + more;
      CutInTwo(s, more);
      var c := CutAll(s);
      if !c.failed {
        CutEnds(s);
        ChunkingIndependence(c.rest, chunks[1..]);
        var d, all := Feed(c.rest, chunks[1..]), CutAll(c.rest + more);
        assert c.pkts + d.pkts <= c.pkts + all.pkts;
      }
    }
  }

  lemma CutOfWaiting(s: seq<byte>)
    requires Next(s) == Wait
    ensures CutAll(s) == Cut([], s, false)
  {
  }

  // ---------------------------------------------------------------- valid streams

  function Stream(pkts: seq<Packet>): seq<byte> {
    if pkts == [] then [] else Frame(pkts[0]) + Stream(pkts[1..])
  }

  /** Packets sent and cut in any way arrive, in order, with nothing left over. */
  lemma {:induction false} StreamArrives(pkts: seq<Packet>, chunks: seq<seq<byte>>)
    requires (forall p :: p in pkts ==> Sendable(p)) && Joined(chunks) == Stream(pkts)
    ensures Feed([], chunks) == Cut(pkts, [], false)
  {
    CutStream(pkts);
    ChunkingIndependence([], chunks);
    assert [] + Joined(chunks) == Stream(pkts);
  }

  lemma {:induction false} CutStream(pkts: seq<Packet>)
    requires forall p :: p in pkts ==> Sendable(p)
    ensures CutAll(Stream(pkts)) == Cut(pkts, [], false)
  {
    hide Next, Frame;
    if pkts == [] {
      assert Next([]) == Wait by { NextOfNothing(); }
    } else {
      NextOfFrame(pkts[0], Stream(pkts[1..]));
      CutStream(pkts[1..]);
      assert Stream(pkts)[|Frame(pkts[0])|..] == Stream(pkts[1..]);
      assert [pkts[0]] + pkts[1..] == pkts;
    }
  }

  lemma NextOfNothing()
    ensures Next([]) == Wait
  {
  }

  lemma {:induction false} BytesOfUnsigned(x: seq<byte>)
    ensures Bytes(Unsigned(x), |x|) == x
  {
    if x != [] { BytesOfUnsigned(x[..|x| - 1]); }
  }

  /** A packet taken off the buffer is the frame at its front. */
  lemma GotIsFrame(s: seq<byte>)
    requires Next(s).Got?
    ensures Sendable(Next(s).p) && Frame(Next(s).p) == s[..Next(s).size]
  {
    hide Unsigned, Bytes;
    var u := Unsigned(s[1..HEADER]);
    Unmarshaller.UnsignedFour(s[1..HEADER]);
    BytesOfUnsigned(s[1..HEADER]);
    assert Length(s) == u;
    assert s[..Next(s).size] == [s[0]] + s[1..HEADER] + s[HEADER..Next(s).size];
  }

  ghost predicate AllSendable(pkts: seq<Packet>) {
    forall p :: p in pkts ==> Sendable(p)
  }

  /** The cut puts the stream together again. */
  lemma {:induction false} CutIsStream(s: seq<byte>)
    ensures AllSendable(CutAll(s).pkts) && s == Stream(CutAll(s).pkts) + CutAll(s).rest
    decreases |s|
  {
    hide Next, Frame, Sendable;
    match Next(s)
    case Wait =>
    case Unknown =>
    case Got(p, n) =>
      GotIsFrame(s);
      CutIsStream(s[n..]);
      var c := CutAll(s[n..]);
      TailOfSum([p], c.pkts);
      NoneBefore(c.pkts);
      Halves(s, n);
      Cat(Frame(p), Stream(c.pkts), c.rest);
  }

  /** Main result: the packets cut off are the one way to read the bytes as frames and a rest
      that is no frame; it is an exception exactly when the rest begins with an unknown type. */
  lemma CutIsExact(s: seq<byte>, c: Cut)
    ensures CutAll(s) == c <==>
      && AllSendable(c.pkts) && s == Stream(c.pkts) + c.rest && !Next(c.rest).Got?
      && (c.failed <==> c.rest != [] && !Known(c.rest[0]))
  {
    hide CutAll, Stream, Sendable, Length;
    CutIsStream(s);
    CutEnds(s);
    if AllSendable(c.pkts) && s == Stream(c.pkts) + c.rest && !Next(c.rest).Got? && (c.failed <==> c.rest != [] && !Known(c.rest[0])) {
      CutStream(c.pkts);
      CutInTwo(Stream(c.pkts), c.rest);
      CutOfRest(c.rest);
      assert [] + c.rest == c.rest && c.pkts + [] == c.pkts;
    }
  }

  lemma CutOfRest(rest: seq<byte>)
    requires !Next(rest).Got?
    ensures CutAll(rest) == Cut([], rest, Next(rest) == Unknown)
  {
  }

  /** An unknown type byte comes up after at least one whole packet. */
  ghost predicate Spoiled(s: seq<byte>) {
    exists pkts, rest :: pkts != [] && AllSendable(pkts) && rest != [] && !Known(rest[0]) && s == Stream(pkts) + rest
  }

  lemma SpoiledIsLost(s: seq<byte>)
    ensures Spoiled(s) <==> CutAll(s).failed && CutAll(s).pkts != []
  {
    hide CutAll, Stream, AllSendable;
    CutIsExact(s, CutAll(s));
    if Spoiled(s) {
      var pkts, rest :| pkts != [] && AllSendable(pkts) && rest != [] && !Known(rest[0]) && s == Stream(pkts) + rest;
      CutIsExact(s, Cut(pkts, rest, true));
    }
  }

  /** Main result: every way of chunking hands over all packets exactly when the stream is not
      one or more whole packets followed by an unknown type byte. */
  lemma AllHandedOver(s: seq<byte>)
    ensures (forall chunks :: Joined(chunks) == s ==> Feed([], chunks).pkts == CutAll(s).pkts) <==> !Spoiled(s)
  {
    hide CutAll, Spoiled;
    SpoiledIsLost(s);
    if !Spoiled(s) {
      forall chunks | Joined(chunks) == s ensures Feed([], chunks).pkts == CutAll(s).pkts {
        ChunkingIndependence([], chunks);
        assert [] + s == s;
      }
    } else {
      var whole := [s];
      assert Joined(whole) == s by { assert whole[1..] == [] && s + [] == s; }
      assert [] + whole[0] == s;
      assert Feed([], whole).pkts == [];
      assert !(Joined(whole) == s ==> Feed([], whole).pkts == CutAll(s).pkts);
    }
  }

  /** The announced length is negative. */
  predicate Stuck(s: seq<byte>) {
    |s| >= 2 && s[1] >= 128
  }

  lemma LengthSign(s: seq<byte>)
    requires |s| >= HEADER
    ensures Length(s) < 0 <==> Stuck(s)
  {
    hide Unsigned;
    Unmarshaller.UnsignedFour(s[1..HEADER]);
  }

  /** Main result: what waits in the buffer is a strict beginning of a frame that the right bytes
      complete, unless it announces a negative length, and then no bytes ever do. */
  lemma WaitingIsPartial(s: seq<byte>)
    requires Next(s) == Wait
    ensures (exists more :: more != [] && Next(s + more).Got? && Next(s + more).size == |s + more|) <==> !Stuck(s)
    ensures Stuck(s) ==> forall more :: Next(s + more) == Wait
  {
    hide Length;
    if Stuck(s) {
      forall more ensures Next(s + more) == Wait {
        if |s + more| >= HEADER { LengthSign(s + more); }
      }
    } else {
      var more := Completion(s);
    }
  }

  lemma Completion(s: seq<byte>) returns (more: seq<byte>)
    requires Next(s) == Wait && !Stuck(s)
    ensures more != [] && Next(s + more).Got? && Next(s + more).size == |s + more|
  {
    hide Unsigned;
    var fill := seq(if |s| < HEADER then HEADER - |s| else 0, _ => 0);
    var header := s + fill;
    assert |s| >= HEADER ==> header == s;
    LengthSign(header);
    more := fill + seq(HEADER + Length(header) - |header|, _ => 0);
    assert s + more == header + seq(HEADER + Length(header) - |header|, _ => 0);
    assert (s + more)[1..HEADER] == header[1..HEADER];
  }
}
