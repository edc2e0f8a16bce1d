/** From the client's byte arrays, cut in any way, to the packets the server works on. */
module Delivery {
  import opened Events
  import opened Rules
  import opened WireFormat
  import WireRoundTrip
  import Marshaller
  import opened Framing

  /** What a client sends: a rule, with the order in which its tables happen to be visited, or a
      publication. */
  datatype Message = RuleMessage(t: RuleTables, o: Orders) | PubMessage(p: Publication)

  ghost predicate Proper(m: Message) {
    match m
    case RuleMessage(t, o) => AreOrders(o, t) && |EncRule(t, o)| < INT_LIMIT
    case PubMessage(p) => CleanTime(p.ts) && |EncPub(p)| < INT_LIMIT
  }

  /** The bytes of the array that the client builds. */
  ghost function Sent(m: Message): seq<byte>
    requires Proper(m)
  {
    match m
    case RuleMessage(t, o) => [Marshaller.RULE_PKT] + EncInt(|EncRule(t, o)|) + EncRule(t, o)
    case PubMessage(p) => [Marshaller.PUB_PKT] + EncInt(|EncPub(p)|) + EncPub(p)
  }

  ghost function SentAll(ms: seq<Message>): seq<byte>
    requires forall m :: m in ms ==> Proper(m)
  {
    if ms == [] then [] else Sent(ms[0]) + SentAll(ms[1..])
  }

  datatype Received = RuleReceived(t: RuleTables) | PubReceived(p: Publication) | Undecodable | Other

  /** The server decodes a body by the type byte: 0 is a publication, 1 is a rule. */
  function Dispatch(pkt: Packet, now: nat): Received {
    if pkt.pktType == 0 then
      match ParsePub(pkt.body, 0, now) case Parsed(p, _) => PubReceived(p) case Fail => Undecodable
    else if pkt.pktType == 1 then
      match ParseRule(pkt.body, 0) case Parsed(t, _) => RuleReceived(t) case Fail => Undecodable
    else Other
  }

  /** What the message says; a publication without a time stamp gets the current time. */
  function Said(m: Message, now: nat): Received {
    match m
    case RuleMessage(t, _) => RuleReceived(t)
    case PubMessage(p) => PubReceived(if p.ts > 0 then p else p.(ts := now))
  }

  predicate Clean(m: Message) {
    match m case RuleMessage(t, _) => CleanRule(t) case PubMessage(p) => CleanPub(p)
  }

  ghost function PacketOf(m: Message): (pkt: Packet)
    requires Proper(m)
  {
    match m
    case RuleMessage(t, o) => Packet(1, EncRule(t, o))
    case PubMessage(p) => Packet(0, EncPub(p))
  }

  ghost function PacketsOf(ms: seq<Message>): (pkts: seq<Packet>)
    requires forall m :: m in ms ==> Proper(m)
    ensures |pkts| == |ms| && forall k :: 0 <= k < |ms| ==> pkts[k] == PacketOf(ms[k])
  {
    seq(|ms|, k requires 0 <= k < |ms| => PacketOf(ms[k]))
  }

  lemma SentIsFrame(m: Message)
    requires Proper(m)
    ensures Sent(m) == Frame(PacketOf(m)) && Sendable(PacketOf(m))
  {
    hide EncRule, EncPub, EncInt;
  }

  /** A packet says what was sent exactly when the names in it are clean. */
  lemma SaysWhatWasSent(m: Message, now: nat)
    requires Proper(m)
    ensures Dispatch(PacketOf(m), now) == Said(m, now) <==> Clean(m)
  {
    hide EncRule, EncPub, ParseRule, ParsePub, CleanRule, CleanPub, AreOrders;
    match m
    case RuleMessage(t, o) =>
      var b := EncRule(t, o);
      assert [] + b + [] == b && [] + b == b;
      if CleanRule(t) { WireRoundTrip.RuleRoundTrip([], t, o, []); }
    case PubMessage(p) =>
      var b := EncPub(p);
      assert [] + b + [] == b && [] + b == b;
      if CleanPub(p) { WireRoundTrip.PubRoundTrip([], p, [], now); }
      CleanPubIs(p);
  }

  lemma CleanPubIs(p: Publication)
    requires CleanTime(p.ts)
    ensures CleanPub(p) <==> CleanAll(p.attributes, AttrKind)
  {
  }

  lemma {:induction false} SentAllIsStream(ms: seq<Message>)
    requires forall m :: m in ms ==> Proper(m)
    ensures SentAll(ms) == Stream(PacketsOf(ms))
  {
    hide Proper, Sent, PacketOf, Frame;
    if ms != [] {
      assert forall m :: m in ms[1..] ==> Proper(m);
      SentIsFrame(ms[0]);
      SentAllIsStream(ms[1..]);
      assert PacketsOf(ms)[1..] == PacketsOf(ms[1..]);
    }
  }

  /** Main result: rules and publications sent one after the other and cut in any way reach the
      server as so many packets in order, with nothing left over, and each is decoded by its type
      into what was sent. */
  lemma AllDelivered(ms: seq<Message>, chunks: seq<seq<byte>>, now: nat)
    requires (forall m :: m in ms ==> Proper(m) && Clean(m)) && Joined(chunks) == SentAll(ms)
    ensures var fed := Feed([], chunks);
            |fed.pkts| == |ms| && fed.rest == [] && !fed.failed
            && forall k :: 0 <= k < |ms| ==> Dispatch(fed.pkts[k], now) == Said(ms[k], now)
  {
    hide Proper, Clean, Dispatch, Said, PacketOf, Feed, Sendable, Joined;
    SentAllIsStream(ms);
    var pkts := PacketsOf(ms);
    forall p | p in pkts ensures Sendable(p) {
      var k :| 0 <= k < |pkts| && pkts[k] == p;
      assert ms[k] in ms;
      SentIsFrame(ms[k]);
    }
    StreamArrives(pkts, chunks);
    forall k | 0 <= k < |ms| ensures Dispatch(pkts[k], now) == Said(ms[k], now) {
      assert ms[k] in ms;
      SaysWhatWasSent(ms[k], now);
    }
  }

  /** The array that the client builds of a rule is one packet, which the server reads as that rule. */
  method SendRule(t: RuleTables, ghost now: nat) returns (dest: array<byte>)
    requires CleanRule(t) && forall o :: AreOrders(o, t) ==> |EncRule(t, o)| < INT_LIMIT
    ensures var c := CutAll(dest[..]); |c.pkts| == 1 && c.rest == [] && !c.failed && Dispatch(c.pkts[0], now) == RuleReceived(t)
  {
    hide CleanRule, EncRule, EncInt, AreOrders, Dispatch, CutAll, Frame;
    dest := Marshaller.GetByteArrayOfRule(t);
    ghost var o :| AreOrders(o, t) && dest[..] == [Marshaller.RULE_PKT] + EncInt(|EncRule(t, o)|) + EncRule(t, o);
    OneDelivered(RuleMessage(t, o), now);
  }

  /** And of a publication. */
  method SendPub(p: Publication, ghost now: nat) returns (dest: array<byte>)
    requires CleanPub(p) && |EncPub(p)| < INT_LIMIT
    ensures var c := CutAll(dest[..]);
            |c.pkts| == 1 && c.rest == [] && !c.failed && Dispatch(c.pkts[0], now) == PubReceived(if p.ts > 0 then p else p.(ts := now))
  {
    hide EncPub, EncInt, Dispatch, CutAll, Frame;
    dest := Marshaller.GetByteArrayOfPub(p);
    OneDelivered(PubMessage(p), now);
  }

  lemma OneDelivered(m: Message, now: nat)
    requires Proper(m) && Clean(m)
    ensures CutAll(Sent(m)) == Cut([PacketOf(m)], [], false) && Dispatch(PacketOf(m), now) == Said(m, now)
  {
    hide Proper, Clean, Dispatch, Said, Sent, PacketOf, Frame, Sendable, CutAll;
    SentIsFrame(m);
    SaysWhatWasSent(m, now);
    var pkts := [PacketOf(m)];
    assert pkts[1..] == [] && Stream(pkts) == Frame(pkts[0]) + Stream(pkts[1..]);
    NoneBefore(Frame(PacketOf(m)));
    CutStream(pkts);
  }

  // ---------------------------------------------------------------- the bytes

  /** Every enumeration is sent as the place of its member in the header. */
  lemma Codes()
    ensures forall k: byte :: k < 4 ==> TypeCode([INT, FLOAT, BOOL, STRING][k]) == k
    ensures forall k: byte :: k < 7 ==> OpCode([EQ, LT, GT, NE, IN, LE, GE][k]) == k
    ensures forall k: byte :: k < 3 ==> StateCode([STATE, NEG, AGG][k]) == k
    ensures forall k: byte :: k < 4 ==> KindCode([EACH_WITHIN, FIRST_WITHIN, LAST_WITHIN, ALL_WITHIN][k]) == k
    ensures forall k: byte :: k < 6 ==> FunCode([NONE, AVG, COUNT, MIN, MAX, SUM][k]) == k
    ensures forall k: byte :: k < 6 ==> TreeOpCode([ADD, SUB, MUL, DIV, AND, OR][k]) == k
    ensures forall b: byte :: Known(b) <==> b <= 2 || b == 100 || b == 101
  {
  }

  /** How long names and values may be: a byte longer in constraints than in publications. */
  lemma Limits(s: Name)
    requires NulFree(s)
    ensures CleanConstraint(Constraint(s, EQ, IntVal(0))) <==> |s| <= 15
    ensures CleanConstraint(Constraint([], EQ, StringVal(s))) <==> |s| <= 15
    ensures CleanAttribute(Attribute(s, IntVal(0))) <==> |s| <= 14
    ensures CleanAttribute(Attribute([], StringVal(s))) <==> |s| <= 14
  {
  }

  /** Type 3 at time 258, with the attribute A of value -2. */
  function Sample(): Publication {
    Publication(3, 258, [AttrEl(Attribute([65], IntVal(-2)))])
  }

  lemma SampleAttribute()
    ensures EncAll(Sample().attributes) == [0, 0, 0, 1, 65, 0, 255, 255, 255, 254]
  {
    hide Bytes, EncInt;
    var es := Sample().attributes;
    Marshaller.FourBytes(1);
    Marshaller.FourBytes(-2);
    assert es[1..] == [] && EncAll(es) == EncElement(es[0]) + EncAll([]);
    assert EncElement(es[0]) == EncInt(1) + [65] + ([0] + EncInt(-2));
    assert EncInt(1) == [0, 0, 0, 1] && EncInt(-2) == [255, 255, 255, 254];
    Ten(EncInt(1), 65, 0, EncInt(-2));
  }

  lemma Ten(a: seq<byte>, b: byte, c: byte, d: seq<byte>)
    requires |a| == |d| == 4
    ensures a + [b] + ([c] + d) == [a[0], a[1], a[2], a[3], b, c, d[0], d[1], d[2], d[3]]
  {
  }

  /** Its body: event type, time, number of attributes, and the name, type and value of one. */
  lemma SampleBody()
    ensures EncPub(Sample()) == [0, 0, 0, 3] + [0, 0, 0, 0, 0, 0, 1, 2] + ([0, 0, 0, 1] + [0, 0, 0, 1, 65, 0, 255, 255, 255, 254])
  {
    hide Bytes, EncInt, EncLong, EncAll;
    SampleAttribute();
    Marshaller.FourBytes(3);
    Marshaller.FourBytes(1);
    Marshaller.EightBytes(258);
  }

  /** As sent: packet type, length and body. */
  lemma SampleSent()
    ensures Proper(PubMessage(Sample()))
    ensures Sent(PubMessage(Sample())) == [0] + [0, 0, 0, 26] + EncPub(Sample())
  {
    hide Bytes, EncInt, EncPub;
    SampleBody();
    Marshaller.FourBytes(26);
  }
}
