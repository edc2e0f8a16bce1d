/** From a publication to the listeners: the index, the rules and the recursion together. */
module Reports {
  import opened Events
  import opened Rules
  import opened Detection
  import opened Aggregates
  import opened Runs
  import opened Purging
  import opened PurgeLimits
  import opened Timelines
  import opened Indexing
  import opened IndexingTables
  import opened Reception
  import opened Meaning
  import opened StacksRules
  import opened Engine

  /** The packet with what the engine is told of rule k. */
  function InputFor(x: TRexEngine, k: nat, pkt: PubPkt): Input {
    var w := x.interest(pkt, k);
    Input(pkt, w.states, w.negs, w.aggs)
  }

  /** The engine is told what the indexing table says. */
  ghost predicate Indexed(x: TRexEngine, rank: int32 -> int) {
    forall pkt: PubPkt, k: nat :: k < |x.rules| && DistinctNames(pkt.attributes) ==> Receivable(x.rules[k].r, rank, InputFor(x, k, pkt))
  }

  /** There is only one thing the table can say. */
  lemma OneAnswer(r: Rule, rank: int32 -> int, a: Input, b: Input)
    requires Receivable(r, rank, a) && Receivable(r, rank, b) && a.pkt == b.pkt
    ensures a == b
  {
    hide Reception.Reported;
    forall i ensures (i in a.states <==> i in b.states) && (i in a.negs <==> i in b.negs) && (i in a.aggs <==> i in b.aggs) {
    }
  }

  /** Asking the table is asking what the engine is told. */
  method Consult(x: TRexEngine, table: IndexingTable, k: nat, pkt: PubPkt) returns (inp: Input)
    requires k < |x.rules| && table.Valid() && table.Knows(k, x.rules[k].r) && Indexed(x, table.rank) && DistinctNames(pkt.attributes)
    ensures inp == InputFor(x, k, pkt)
  {
    hide Receivable;
    inp := Ask(table, k, x.rules[k].r, pkt);
    assert Receivable(x.rules[k].r, table.rank, InputFor(x, k, pkt));
    OneAnswer(x.rules[k].r, table.rank, inp, InputFor(x, k, pkt));
  }

  /** Every rule is well-formed, and its expiry cannot be seen. */
  ghost predicate ExpiryUnseen(x: TRexEngine) {
    forall k :: 0 <= k < |x.rules| ==> WellFormed(x.rules[k].r) && (PurgeSafe(x.rules[k].r) || Unmatchable(x.rules[k].r))
  }

  /** Composite events carry no attribute twice. */
  ghost predicate Named(x: TRexEngine) {
    forall k: nat, c: Composite :: DistinctNames(x.content(k, c).1)
  }

  // ---------------------------------------------------------------- what listeners should be told

  /** `p` tells of rule k's match `m`: its time, and the values of the time-based aggregates over
      everything that has passed for them. */
  ghost predicate Tells(x: TRexEngine, rank: int32 -> int, h: seq<PubPkt>, k: nat, m: Partial, p: PubPkt)
    requires k < |x.rules| && WellFormed(x.rules[k].r) && h != []
  {
    var r := x.rules[k].r;
    |m| == |r.predicates|
    && exists c: Composite :: x.Carries(p, k, c) && |c.values| == |r.aggregates|
         && forall j :: 0 <= j < |r.aggregates| && r.aggregates[j].lowerId < 0 ==>
              AggregateIs(r, j, Seen(r, rank, h, |h| - 1).aggs[j], m, c.values[j])
  }

  /** One packet for each match that the last packet of the history completes in rule k. */
  ghost predicate RuleReports(x: TRexEngine, rank: int32 -> int, h: seq<PubPkt>, k: nat, result: seq<PubPkt>)
    requires k < |x.rules| && WellFormed(x.rules[k].r) && h != []
  {
    exists ms: seq<Partial> :: Distinct(ms) && |ms| == |result|
      && (forall m :: m in ms <==> Declared(x.rules[k].r, rank, h, |h| - 1, m))
      && forall i :: 0 <= i < |result| ==> result[i].ts == h[|h| - 1].ts && Tells(x, rank, h, k, ms[i], result[i])
  }

  /** The reports of the first n rules, one rule after the other. */
  ghost predicate Announced(x: TRexEngine, rank: int32 -> int, h: seq<PubPkt>, n: nat, result: seq<PubPkt>)
    requires n <= |x.rules| && ExpiryUnseen(x) && h != []
  {
    if n == 0 then result == []
    else exists cut :: 0 <= cut <= |result| && Announced(x, rank, h, n - 1, result[..cut]) && RuleReports(x, rank, h, n - 1, result[cut..])
  }

  /** A history: fresh packets in time order, no attribute twice. */
  ghost predicate Proper(h: seq<PubPkt>) {
    && Distinct(h) && Sorted(h)
    && forall k :: 0 <= k < |h| ==> DistinctNames(h[k].attributes)
  }

  function InputsFor(x: TRexEngine, k: nat, h: seq<PubPkt>): (inps: seq<Input>)
    ensures |inps| == |h|
  {
    seq(|h|, n requires 0 <= n < |h| => InputFor(x, k, h[n]))
  }

  /** The rules' stacks are those of the runs that the history makes. */
  ghost predicate Follows(x: TRexEngine, sts: seq<Stacks>, h: seq<PubPkt>)
    requires ExpiryUnseen(x)
  {
    |sts| == |x.rules|
    && forall k :: 0 <= k < |x.rules| ==> sts[k] == StacksAfter(x.rules[k].r, InputsFor(x, k, h), |h|, true)
  }

  /** Listeners were told, packet by packet, what the history up to it declares. */
  ghost predicate Told(x: TRexEngine, rank: int32 -> int, s: Moment)
    requires ExpiryUnseen(x)
  {
    && Proper(s.history) && Follows(x, s.stacks, s.history) && |s.notified| == |s.history|
    && forall n :: 0 <= n < |s.history| ==> Announced(x, rank, s.history[..n + 1], |x.rules|, s.notified[n])
  }

  /** At the start nothing has happened and nothing was told. */
  lemma StartTold(x: TRexEngine, rank: int32 -> int, s: Moment)
    requires ExpiryUnseen(x) && s.history == [] && s.notified == [] && |s.stacks| == |x.rules|
    requires forall k :: 0 <= k < |x.rules| ==> s.stacks[k] == Empty(x.rules[k].r)
    ensures Told(x, rank, s)
  {
    hide Empty;
  }

  // ---------------------------------------------------------------- one packet

  lemma {:induction false} SamePrefix(r: Rule, a: seq<Input>, b: seq<Input>, n: nat, purging: bool)
    requires WellFormed(r) && n <= |a| && n <= |b| && a[..n] == b[..n]
    ensures StacksAfter(r, a, n, purging) == StacksAfter(r, b, n, purging)
  {
    hide Step, WellFormed;
    if n > 0 {
      assert a[..n - 1] == a[..n][..n - 1] && b[..n - 1] == b[..n][..n - 1] && a[..n][n - 1] == b[..n][n - 1];
      SamePrefix(r, a, b, n - 1, purging);
    }
  }

  /** A packet that is new and not earlier extends the history. */
  ghost predicate Next(h: seq<PubPkt>, pkt: PubPkt) {
    pkt !in h && DistinctNames(pkt.attributes) && forall p :: p in h ==> p.ts <= pkt.ts
  }

  lemma NextProper(h: seq<PubPkt>, pkt: PubPkt)
    requires Proper(h) && Next(h, pkt)
    ensures Proper(h + [pkt])
  {
    hide DistinctNames;
  }

  lemma ProperRun(x: TRexEngine, rank: int32 -> int, h: seq<PubPkt>, k: nat)
    requires Indexed(x, rank) && Proper(h) && k < |x.rules|
    ensures EngineRun(x.rules[k].r, rank, InputsFor(x, k, h)) && PktsOf(InputsFor(x, k, h)) == h
  {
    hide DistinctNames, Receivable;
    var inps := InputsFor(x, k, h);
    forall n | 0 <= n < |inps| ensures Receivable(x.rules[k].r, rank, inps[n]) { assert inps[n] == InputFor(x, k, h[n]); }
    assert PktsOf(inps) == h;
  }

  lemma FollowsStep(x: TRexEngine, sts: seq<Stacks>, h: seq<PubPkt>, pkt: PubPkt)
    requires ExpiryUnseen(x) && Follows(x, sts, h)
    ensures Follows(x, x.SteppedTo(sts, pkt, |x.rules|), h + [pkt])
  {
    hide Step, StacksAfter, WellFormed, PurgeSafe, Unmatchable;
    var after := x.SteppedTo(sts, pkt, |x.rules|);
    forall k | 0 <= k < |x.rules| ensures after[k] == StacksAfter(x.rules[k].r, InputsFor(x, k, h + [pkt]), |h| + 1, true) {
      SteppedAt(x, sts, pkt, |x.rules|, k);
      StepOfRun(x, h, pkt, k);
    }
  }

  lemma {:induction false} SteppedAt(x: TRexEngine, sts: seq<Stacks>, pkt: PubPkt, n: nat, k: nat)
    requires n <= |sts| && k < n
    ensures x.SteppedTo(sts, pkt, n)[k] == x.Stepped(sts[k], pkt, k)
  {
    if k < n - 1 { SteppedAt(x, sts, pkt, n - 1, k); }
  }

  /** One more packet is one more step of rule k's run. */
  lemma StepOfRun(x: TRexEngine, h: seq<PubPkt>, pkt: PubPkt, k: nat)
    requires k < |x.rules| && WellFormed(x.rules[k].r)
    ensures var st := StacksAfter(x.rules[k].r, InputsFor(x, k, h), |h|, true);
            var inps := InputsFor(x, k, h + [pkt]);
            x.Stepped(st, pkt, k) == StacksAfter(x.rules[k].r, inps, |h| + 1, true)
            && x.EmissionOf(st, pkt, k) == Emitted(x.rules[k].r, inps, |h|, true)
  {
    hide Step, WellFormed;
    var a, b := InputsFor(x, k, h), InputsFor(x, k, h + [pkt]);
    assert a[..|h|] == b[..|h|];
    SamePrefix(x.rules[k].r, a, b, |h|, true);
    assert b[|h|] == InputFor(x, k, pkt);
  }

  lemma RuleAnswersReports(x: TRexEngine, rank: int32 -> int, h: seq<PubPkt>, pkt: PubPkt, k: nat, result: seq<PubPkt>)
    requires ExpiryUnseen(x) && Indexed(x, rank) && Proper(h) && Next(h, pkt) && k < |x.rules|
    requires x.RuleAnswers(StacksAfter(x.rules[k].r, InputsFor(x, k, h), |h|, true), pkt, k, result)
    ensures RuleReports(x, rank, h + [pkt], k, result)
  {
    hide Step, WellFormed, PurgeSafe, Unmatchable, StacksAfter, Declared, Distinct, AggregateIs, EngineRun, Seen, Next;
    var r, h', st := x.rules[k].r, h + [pkt], StacksAfter(x.rules[k].r, InputsFor(x, k, h), |h|, true);
    NextProper(h, pkt);
    ProperRun(x, rank, h', k);
    StepOfRun(x, h, pkt, k);
    EmittedIsDeclared(r, rank, InputsFor(x, k, h'), |h|);
    var em := x.EmissionOf(st, pkt, k);
    forall i | 0 <= i < |result| ensures Tells(x, rank, h', k, em.matches[i], result[i]) {
      assert x.IsResult(k, em.aggs, em.matches[i], result[i]);
      var c: Composite :| IsComposite(r, em.aggs, em.matches[i], c) && result[i].ts == c.ts && (result[i].eventType, result[i].attributes) == x.content(k, c);
      assert x.Carries(result[i], k, c);
    }
  }

  lemma {:induction false} AnswersReported(x: TRexEngine, rank: int32 -> int, sts: seq<Stacks>, h: seq<PubPkt>, pkt: PubPkt, n: nat, result: seq<PubPkt>)
    requires ExpiryUnseen(x) && Indexed(x, rank) && Proper(h) && Next(h, pkt) && Follows(x, sts, h) && n <= |x.rules|
    requires x.Answers(sts, pkt, n, result)
    ensures Announced(x, rank, h + [pkt], n, result)
  {
    hide Proper, Next, Indexed, RuleReports, ExpiryUnseen, StacksAfter, WellFormed, InputsFor;
    hide TRexEngine.RuleAnswers;
    if n > 0 {
      var cut :| 0 <= cut <= |result| && x.Answers(sts, pkt, n - 1, result[..cut]) && x.RuleAnswers(sts[n - 1], pkt, n - 1, result[cut..]);
      AnswersReported(x, rank, sts, h, pkt, n - 1, result[..cut]);
      RuleAnswersReports(x, rank, h, pkt, n - 1, result[cut..]);
    }
  }

  /** What the rules answer can go through the rules in turn. */
  lemma {:induction false} AnswersNamed(x: TRexEngine, sts: seq<Stacks>, pkt: PubPkt, n: nat, result: seq<PubPkt>)
    requires Named(x) && n <= |sts| && n <= |x.rules| && x.Answers(sts, pkt, n, result)
    ensures forall p :: p in result ==> DistinctNames(p.attributes)
  {
    hide DistinctNames, Named;
    hide TRexEngine.RuleAnswers;
    if n > 0 {
      var cut :| 0 <= cut <= |result| && x.Answers(sts, pkt, n - 1, result[..cut]) && x.RuleAnswers(sts[n - 1], pkt, n - 1, result[cut..]);
      AnswersNamed(x, sts, pkt, n - 1, result[..cut]);
      RuleNamed(x, sts[n - 1], pkt, n - 1, result[cut..]);
      Halves(result, cut);
    }
  }

  lemma RuleNamed(x: TRexEngine, st: Stacks, pkt: PubPkt, k: nat, result: seq<PubPkt>)
    requires Named(x) && k < |x.rules| && x.RuleAnswers(st, pkt, k, result)
    ensures forall p :: p in result ==> DistinctNames(p.attributes)
  {
    hide DistinctNames, Step, IsComposite, WellFormed;
    var em := x.EmissionOf(st, pkt, k);
    forall i | 0 <= i < |result| ensures DistinctNames(result[i].attributes) {
      assert x.IsResult(k, em.aggs, em.matches[i], result[i]);
      var c: Composite :| IsComposite(x.rules[k].r, em.aggs, em.matches[i], c) && result[i].ts == c.ts && (result[i].eventType, result[i].attributes) == x.content(k, c);
    }
  }

  // ---------------------------------------------------------------- every round

  /** From `s` to `s'` the history has grown by packets of time `ts`. */
  ghost predicate Grown(s: Moment, s': Moment, ts: nat) {
    s.history <= s'.history && forall p :: p in s'.history ==> p in s.history || p.ts == ts
  }

  /** Main result: along a publication, at any depth of the recursion, listeners are told of
      every packet that goes through the rules exactly what the history up to it declares. */
  lemma {:induction false} RoundTold(x: TRexEngine, rank: int32 -> int, s: Moment, pkt: PubPkt, s': Moment)
    requires ExpiryUnseen(x) && Indexed(x, rank) && Named(x) && Told(x, rank, s)
    requires DistinctNames(pkt.attributes) && forall p :: p in s.history ==> p.ts <= pkt.ts
    requires x.RoundLeads(s, pkt, s')
    ensures Told(x, rank, s') && Grown(s, s', pkt.ts) && pkt in s'.history
    decreases MAX_RECURSION_DEPTH - s.depth, 2, 0
  {
    hide ExpiryUnseen, Indexed, Named, Proper, Follows, Announced, DistinctNames;
    hide TRexEngine.Answers, TRexEngine.SteppedTo, TRexEngine.ResultsLead;
    var result :| x.Answers(s.stacks, pkt, |x.rules|, result) && x.ResultsLead(x.AfterRules(s, pkt, result), multiset(result), s');
    var mid := x.AfterRules(s, pkt, result);
    PacketTold(x, rank, s, pkt, result);
    x.AnswersStamped(s.stacks, pkt, |x.rules|, result);
    AnswersNamed(x, s.stacks, pkt, |x.rules|, result);
    ResultsTold(x, rank, mid, multiset(result), s', pkt.ts);
    assert mid.history[|s.history|] == pkt;
  }

  lemma PacketTold(x: TRexEngine, rank: int32 -> int, s: Moment, pkt: PubPkt, result: seq<PubPkt>)
    requires ExpiryUnseen(x) && Indexed(x, rank) && Told(x, rank, s) && Next(s.history, pkt) && |s.stacks| == |x.rules|
    requires x.Answers(s.stacks, pkt, |x.rules|, result)
    ensures Told(x, rank, x.AfterRules(s, pkt, result))
  {
    hide ExpiryUnseen, Indexed, Proper, Follows, Announced, Next;
    hide TRexEngine.Answers, TRexEngine.SteppedTo;
    var h, mid := s.history, x.AfterRules(s, pkt, result);
    NextProper(h, pkt);
    FollowsStep(x, s.stacks, h, pkt);
    AnswersReported(x, rank, s.stacks, h, pkt, |x.rules|, result);
    forall n | 0 <= n < |h| + 1 ensures Announced(x, rank, mid.history[..n + 1], |x.rules|, mid.notified[n]) {
      if n < |h| { assert mid.history[..n + 1] == h[..n + 1]; } else { assert mid.history[..n + 1] == h + [pkt]; }
    }
  }

  lemma {:induction false} ResultsTold(x: TRexEngine, rank: int32 -> int, s: Moment, rest: multiset<PubPkt>, s': Moment, ts: nat)
    requires ExpiryUnseen(x) && Indexed(x, rank) && Named(x) && Told(x, rank, s)
    requires x.ResultsLead(s, rest, s') && forall p :: p in rest ==> p.ts == ts && DistinctNames(p.attributes)
    requires forall p :: p in s.history ==> p.ts <= ts
    ensures Told(x, rank, s') && Grown(s, s', ts)
    decreases MAX_RECURSION_DEPTH - s.depth, 1, |rest|
  {
    hide ExpiryUnseen, Indexed, Named, Told, DistinctNames;
    hide TRexEngine.ResultLeads;
    if rest != multiset{} {
      var p: PubPkt, mid: Moment :| p in rest && s.depth <= mid.depth <= MAX_RECURSION_DEPTH && x.ResultLeads(s, p, mid)
                    && x.ResultsLead(mid, rest - multiset{p}, s');
      ResultTold(x, rank, s, p, mid);
      ResultsTold(x, rank, mid, rest - multiset{p}, s', ts);
    }
  }

  lemma {:induction false} ResultTold(x: TRexEngine, rank: int32 -> int, s: Moment, p: PubPkt, s': Moment)
    requires ExpiryUnseen(x) && Indexed(x, rank) && Named(x) && Told(x, rank, s)
    requires x.ResultLeads(s, p, s') && DistinctNames(p.attributes) && forall q :: q in s.history ==> q.ts <= p.ts
    ensures Told(x, rank, s') && Grown(s, s', p.ts)
    decreases MAX_RECURSION_DEPTH - s.depth, 0, 0
  {
    hide ExpiryUnseen, Indexed, Named, Proper, Follows, Announced, DistinctNames;
    hide TRexEngine.RoundLeads;
    if x.recursionNeeded && s.depth < MAX_RECURSION_DEPTH {
      var copy: PubPkt :| copy == p.(id := copy.id) && x.RoundLeads(s.(depth := s.depth + 1), copy, s');
      RoundTold(x, rank, s.(depth := s.depth + 1), copy, s');
    }
  }

  /** A publication not earlier than the last keeps what listeners were told right. */
  method ProcessPubPkt(x: TRexEngine, ghost rank: int32 -> int, eventType: int32, ts: nat, attributes: seq<Attribute>) returns (pkt: PubPkt)
    requires x.Valid() && ExpiryUnseen(x) && Indexed(x, rank) && Named(x) && Told(x, rank, x.State())
    requires DistinctNames(attributes) && forall p :: p in x.history ==> p.ts <= ts
    modifies x`recursionDepth, x`notified, x`history, x.rules, x.pool
    ensures x.Valid() && Told(x, rank, x.State())
    ensures old(x.history) <= x.history && pkt in x.history && pkt.ts == ts && forall p :: p in x.history ==> p.ts <= ts
  {
    hide ExpiryUnseen, Indexed, Named, Proper, Follows, Announced, DistinctNames;
    hide TRexEngine.RoundLeads;
    ghost var s := x.State().(depth := 0);
    pkt := x.ProcessPubPkt(eventType, ts, attributes);
    RoundTold(x, rank, s, pkt, x.State());
  }
}
