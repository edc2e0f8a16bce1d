/** The engine: a publication goes through every rule, and its composite events recurse. */
module Engine {
  import opened Events
  import opened Rules
  import opened Detection
  import opened Soundness
  import opened Runs
  import opened StacksRules

  const MAX_RECURSION_DEPTH: nat := 10

  /** What the indexing table reports of one rule. */
  datatype Interest = Interest(states: set<int>, negs: set<int>, aggs: set<int>)

  function StacksOf(rules: seq<StacksRule>): (sts: seq<Stacks>)
    reads rules
    ensures |sts| == |rules|
  {
    if rules == [] then [] else [rules[0].St()] + StacksOf(rules[1..])
  }

  lemma {:induction false} StacksAt(rules: seq<StacksRule>, k: nat)
    requires k < |rules|
    ensures StacksOf(rules)[k] == rules[k].St()
  {
    if k > 0 { StacksAt(rules[1..], k - 1); }
  }

  /** All packets stored by all rules. */
  function TotalHeld(sts: seq<Stacks>): multiset<PubPkt> {
    if sts == [] then multiset{} else HeldIn(sts[0]) + TotalHeld(sts[1..])
  }

  /** The books balance: taking away what each rule holds leaves what the engine holds. */
  ghost predicate Books(refs: multiset<PubPkt>, sts: seq<Stacks>, held: multiset<PubPkt>) {
    if sts == [] then refs == held
    else HeldIn(sts[0]) <= refs && Books(refs - HeldIn(sts[0]), sts[1..], held)
  }

  lemma {:induction false} BooksTotal(refs: multiset<PubPkt>, sts: seq<Stacks>, held: multiset<PubPkt>)
    ensures Books(refs, sts, held) <==> refs == TotalHeld(sts) + held
  {
    if sts != [] {
      var h, t := HeldIn(sts[0]), TotalHeld(sts[1..]);
      BooksTotal(refs - h, sts[1..], held);
      if h <= refs && refs - h == t + held {
        forall p ensures refs[p] == (h + t + held)[p] { assert (refs - h)[p] == (t + held)[p]; }
      }
      if refs == h + t + held {
        forall p ensures (refs - h)[p] == (t + held)[p] { assert refs[p] == (h + t + held)[p]; }
      }
    }
  }

  lemma BooksAdd(refs: multiset<PubPkt>, sts: seq<Stacks>, held: multiset<PubPkt>, p: PubPkt)
    requires Books(refs, sts, held)
    ensures Books(refs + multiset{p}, sts, held + multiset{p})
  {
    BooksTotal(refs, sts, held);
    BooksTotal(refs + multiset{p}, sts, held + multiset{p});
    assert TotalHeld(sts) + held + multiset{p} == TotalHeld(sts) + (held + multiset{p});
  }

  lemma BooksDrop(refs: multiset<PubPkt>, sts: seq<Stacks>, held: multiset<PubPkt>, p: PubPkt)
    requires Books(refs, sts, held + multiset{p})
    ensures p in refs && Books(refs - multiset{p}, sts, held)
  {
    BooksTotal(refs, sts, held + multiset{p});
    BooksTotal(refs - multiset{p}, sts, held);
    forall q ensures (refs - multiset{p})[q] == (TotalHeld(sts) + held)[q] {
      assert refs[q] == (TotalHeld(sts) + (held + multiset{p}))[q];
    }
    assert refs[p] == (TotalHeld(sts) + (held + multiset{p}))[p];
  }

  lemma BooksIn(refs: multiset<PubPkt>, sts: seq<Stacks>, held: multiset<PubPkt>, p: PubPkt)
    requires Books(refs, sts, held) && p in held
    ensures p in refs
  {
    BooksTotal(refs, sts, held);
  }

  lemma ConcatUpdate(x: seq<Stacks>, a: Stacks, y: seq<Stacks>, b: Stacks)
    ensures (x + [a] + y)[|x| := b] == x + [b] + y
  {
  }

  /** One rule's stacks and the counts change together. */
  lemma BooksChange(sts: seq<Stacks>, i: nat, st: Stacks, refs: multiset<PubPkt>, held: multiset<PubPkt>, refs': multiset<PubPkt>)
    requires i < |sts| && Books(refs, sts, held)
    ensures HeldIn(sts[i]) <= refs
    ensures Accounted(refs, sts[i], refs', st) ==> Books(refs', sts[i := st], held)
  {
    hide HeldIn, TotalHeld, Books;
    BooksTotal(refs, sts, held);
    BooksTotal(refs', sts[i := st], held);
    TotalUpdate(sts, i, st);
    BalancedAt(TotalHeld(sts[i := st]), HeldIn(st), TotalHeld(sts), HeldIn(sts[i]));
    if Accounted(refs, sts[i], refs', st) {
      BalancedAt(refs, HeldIn(sts[i]), refs', HeldIn(st));
      forall p ensures refs'[p] == (TotalHeld(sts[i := st]) + held)[p] {
      }
    }
  }

  lemma {:induction false} TotalUpdate(sts: seq<Stacks>, i: nat, st: Stacks)
    requires i < |sts|
    ensures Balanced(TotalHeld(sts[i := st]), HeldIn(st), TotalHeld(sts), HeldIn(sts[i]))
    ensures HeldIn(sts[i]) <= TotalHeld(sts)
  {
    hide HeldIn;
    var ts := sts[i := st];
    if i == 0 {
      assert ts[1..] == sts[1..];
    } else {
      TotalUpdate(sts[1..], i - 1, st);
      BalancedAt(TotalHeld(sts[1..][i - 1 := st]), HeldIn(st), TotalHeld(sts[1..]), HeldIn(sts[1..][i - 1]));
      assert ts[1..] == sts[1..][i - 1 := st] && ts[0] == sts[0] && sts[1..][i - 1] == sts[i];
      forall p ensures (TotalHeld(sts) + HeldIn(st))[p] == (TotalHeld(ts) + HeldIn(sts[i]))[p] {
      }
    }
  }

  /** The composite events of one publication through a rule: one for each match, in order. */
  ghost predicate Generated(r: Rule, st: Stacks, inp: Input, results: seq<Composite>)
    requires WellFormed(r) && Shaped(r, st)
  {
    var em := Step(r, st, inp, true).0;
    |results| == |em.matches| && forall k :: 0 <= k < |results| ==> IsComposite(r, em.aggs, em.matches[k], results[k])
  }

  /** Composite events carry the time stamp of the packet that completed them. */
  lemma ResultsStamped(r: Rule, st: Stacks, inp: Input, results: seq<Composite>)
    requires WellFormed(r) && Shaped(r, st) && Generated(r, st, inp, results)
    ensures forall k :: 0 <= k < |results| ==> results[k].ts == inp.pkt.ts
  {
    hide Insert, Purge, Detect, Consume;
    var ms := Step(r, st, inp, true).0.matches;
    forall k | 0 <= k < |results| ensures results[k].ts == inp.pkt.ts {
      var st0 := Receive(st, inp);
      DetectIsExact(r, Purge(r, st0.(states := st0.states[0 := [inp.pkt]])), inp.pkt, ms[k]);
    }
  }

  lemma TakeOne(others: multiset<PubPkt>, rest: multiset<PubPkt>, p: PubPkt)
    requires p in rest
    ensures others + rest == others + (rest - multiset{p}) + multiset{p}
  {
  }

  lemma AddOne(others: multiset<PubPkt>, p: PubPkt, s: seq<PubPkt>, t: seq<PubPkt>)
    ensures others + multiset(s) + multiset(t) == others + multiset(s + t)
    ensures others + multiset{p} + multiset(s) == others + multiset(s) + multiset{p}
  {
  }

  /** Every rule is between two publications. */
  ghost predicate AllReady(rules: seq<StacksRule>)
    reads rules
  {
    rules == [] || (Ready(rules[0]) && AllReady(rules[1..]))
  }

  ghost predicate Ready(rule: StacksRule)
    reads rule
  {
    rule.Shape() && rule.receivedPkts[0] == []
  }

  /** A rule among the others. */
  lemma {:induction false} SplitAt(rules: seq<StacksRule>, k: nat)
    requires k < |rules|
    ensures AllReady(rules) <==> AllReady(rules[..k]) && Ready(rules[k]) && AllReady(rules[k + 1..])
    ensures StacksOf(rules) == StacksOf(rules[..k]) + [rules[k].St()] + StacksOf(rules[k + 1..])
  {
    if k > 0 {
      SplitAt(rules[1..], k - 1);
      assert rules[..k][1..] == rules[1..][..k - 1] && rules[k + 1..] == rules[1..][k..];
      assert StacksOf(rules) == [rules[0].St()] + StacksOf(rules[1..]);
    }
  }

  /** Rules that have received nothing hold nothing. */
  lemma {:induction false} StartBalanced(rules: seq<StacksRule>)
    requires forall k :: 0 <= k < |rules| ==> rules[k].Shape() && rules[k].St() == Empty(rules[k].r)
    ensures AllReady(rules) && Books(multiset{}, StacksOf(rules), multiset{})
  {
    hide HeldIn, Empty;
    if rules != [] {
      StartBalanced(rules[1..]);
      EmptyReady(rules[0]);
      assert StacksOf(rules)[1..] == StacksOf(rules[1..]) && StacksOf(rules)[0] == rules[0].St();
      assert multiset{} - HeldIn(rules[0].St()) == multiset{};
    }
  }

  lemma EmptyReady(rule: StacksRule)
    requires rule.Shape() && rule.St() == Empty(rule.r)
    ensures Ready(rule) && HeldIn(rule.St()) == multiset{}
  {
    hide BagOf;
    var st := rule.St();
    BagOfNone(st.states + st.negs + st.aggs);
  }

  /** One rule takes its step; the others are left alone. */
  method StepRule(rules: seq<StacksRule>, k: nat, pool: PacketPool, pkt: PubPkt, w: Interest) returns (results: seq<Composite>)
    requires k < |rules| && AllReady(rules) && WellFormed(rules[k].r) && rules[k].pool == pool && pool.Sound()
    requires forall a, b :: 0 <= a < b < |rules| ==> rules[a] != rules[b]
    requires HeldIn(StacksOf(rules)[k]) <= pool.refs && pkt in pool.refs
    modifies rules[k], pool`refs, pool`freed
    ensures AllReady(rules) && pool.Sound()
    ensures var st := old(StacksOf(rules)[k]);
            Shaped(rules[k].r, st)
            && var st' := Step(rules[k].r, st, Input(pkt, w.states, w.negs, w.aggs), true).1;
            StacksOf(rules) == old(StacksOf(rules))[k := st'] && Accounted(old(pool.refs), st, pool.refs, st')
    ensures Generated(rules[k].r, old(StacksOf(rules)[k]), Input(pkt, w.states, w.negs, w.aggs), results)
  {
    hide Step, IsComposite, Accounted, HeldIn, WellFormed, AllSorted, InStep;
    var rule := rules[k];
    ghost var left, right, st := rules[..k], rules[k + 1..], rule.St();
    ghost var x, y := StacksOf(left), StacksOf(right);
    SplitAt(rules, k);
    assert rule !in left && rule !in right;
    var matches;
    matches, results := rule.ProcessPkt(pkt, w.states, w.negs, w.aggs);
    assert StacksOf(left) == x && StacksOf(right) == y;
    assert AllReady(left) && AllReady(right) && Ready(rule);
    SplitAt(rules, k);
    ConcatUpdate(x, st, y, rule.St());
  }

  /** The engine between two steps: the stacks, the depth, what the listeners were told, and the
      packets that have gone through the rules, published or derived. */
  datatype Moment = Moment(stacks: seq<Stacks>, depth: nat, notified: seq<seq<PubPkt>>, history: seq<PubPkt>)

  /** How many packets the notifications tell of. */
  function TotalReported(ns: seq<seq<PubPkt>>): nat {
    if ns == [] then 0 else |ns[0]| + TotalReported(ns[1..])
  }

  lemma TotalReportedMore(ns: seq<seq<PubPkt>>)
    requires ns != []
    ensures TotalReported(ns) == |ns[0]| + TotalReported(ns[1..])
  {
  }

  lemma {:induction false} TotalReportedAppend(a: seq<seq<PubPkt>>, b: seq<seq<PubPkt>>)
    ensures TotalReported(a + b) == TotalReported(a) + TotalReported(b)
  {
    if a == [] {
      NoneBefore(b);
    } else {
      TotalReportedAppend(a[1..], b);
      TailOfSum(a, b);
    }
  }

  /** A packet equal to `p` but for the identifier has gone through the rules since `s`, or the
      recursion has come to its end. */
  ghost predicate FedOne(p: PubPkt, s: Moment, s': Moment) {
    s'.depth == 10 || exists i :: |s.history| <= i < |s'.history| && s'.history[i] == p.(id := s'.history[i].id)
  }

  /** An address no packet has had. */
  method FreshId(born: set<PubPkt>) returns (id: nat)
    ensures forall p :: p in born ==> p.id < id
  {
    id := 0;
    var rest := born;
    while rest != {}
      invariant rest <= born && forall p :: p in born - rest ==> p.id < id
      decreases rest
    {
      var p :| p in rest;
      if p.id >= id { id := p.id + 1; }
      rest := rest - {p};
    }
  }

  class TRexEngine {
    const pool: PacketPool
    const rules: seq<StacksRule>
    /** The indexing table's answer for a packet and a rule. */
    const interest: (PubPkt, nat) -> Interest
    /** The event type and attributes of a rule's composite event. */
    const content: (nat, Composite) -> (int32, seq<Attribute>)
    const recursionNeeded: bool
    var recursionDepth: nat
    /** What the listeners have been told, one notification a round. */
    var notified: seq<seq<PubPkt>>
    /** The packets that have gone through the rules. */
    ghost var history: seq<PubPkt>

    constructor (pool: PacketPool, rules: seq<StacksRule>, interest: (PubPkt, nat) -> Interest,
                 content: (nat, Composite) -> (int32, seq<Attribute>), recursionNeeded: bool)
      requires pool.born == {} && pool.Sound()
      requires forall a, b :: 0 <= a < b < |rules| ==> rules[a] != rules[b]
      requires forall k :: 0 <= k < |rules| ==> rules[k].pool == pool && rules[k].Valid() && rules[k].St() == Empty(rules[k].r)
      ensures Valid() && this.rules == rules && this.pool == pool && this.interest == interest && this.content == content
      ensures notified == [] && history == []
      ensures forall k :: 0 <= k < |rules| ==> StacksOf(rules)[k] == Empty(rules[k].r)
    {
      hide Books, AllReady, HeldIn;
      this.pool, this.rules, this.interest, this.content := pool, rules, interest, content;
      this.recursionNeeded, recursionDepth, notified := recursionNeeded, 0, [];
      history := [];
      new;
      StartBalanced(rules);
      forall k | 0 <= k < |rules| ensures StacksOf(rules)[k] == Empty(rules[k].r) { StacksAt(rules, k); }
      assert pool.refs == multiset{} by {
        forall p ensures p !in pool.refs { assert p !in pool.born; }
      }
    }

    ghost predicate Wired() {
      && (forall a, b :: 0 <= a < b < |rules| ==> rules[a] != rules[b])
      && forall k :: 0 <= k < |rules| ==> WiredAt(k)
    }

    ghost predicate WiredAt(k: nat)
      requires k < |rules|
    {
      rules[k].pool == pool && WellFormed(rules[k].r)
    }

    /** `held` is what the engine itself references. */
    ghost predicate Accounts(held: multiset<PubPkt>)
      reads this, rules, pool
    {
      Wired() && AllReady(rules) && pool.Sound() && Books(pool.refs, StacksOf(rules), held) && Recorded()
    }

    /** What has gone through the rules was born before. */
    ghost predicate Recorded()
      reads this, pool
    {
      forall p :: p in history ==> p in pool.born
    }

    ghost predicate Valid()
      reads this, rules, pool
    {
      Accounts(multiset{})
    }

    /** Rule k's stacks after the packet. */
    ghost function Stepped(st: Stacks, pkt: PubPkt, k: nat): Stacks {
      if k < |rules| && WellFormed(rules[k].r) && Shaped(rules[k].r, st) then
        var w := interest(pkt, k);
        Step(rules[k].r, st, Input(pkt, w.states, w.negs, w.aggs), true).1
      else st
    }

    /** The stacks after the packet has gone through the first n rules. */
    ghost function SteppedTo(sts: seq<Stacks>, pkt: PubPkt, n: nat): (after: seq<Stacks>)
      requires n <= |sts|
      ensures |after| == |sts| && forall k :: n <= k < |sts| ==> after[k] == sts[k]
    {
      if n == 0 then sts else SteppedTo(sts, pkt, n - 1)[n - 1 := Stepped(sts[n - 1], pkt, n - 1)]
    }

    /** What rule k emits for the packet. */
    ghost function EmissionOf(st: Stacks, pkt: PubPkt, k: nat): (em: Emission)
      requires k < |rules| && WellFormed(rules[k].r) && Shaped(rules[k].r, st)
      ensures AllBound(em.matches, |rules[k].r.predicates|) && |em.aggs| == |rules[k].r.aggregates|
    {
      var w := interest(pkt, k);
      Step(rules[k].r, st, Input(pkt, w.states, w.negs, w.aggs), true).0
    }

    /** `p` is rule k's composite event for the match `m`. */
    ghost predicate IsResult(k: nat, aggs: seq<seq<PubPkt>>, m: Partial, p: PubPkt)
      requires k < |rules| && WellFormed(rules[k].r) && |m| == |rules[k].r.predicates| && |aggs| == |rules[k].r.aggregates|
    {
      exists c: Composite :: IsComposite(rules[k].r, aggs, m, c) && p.ts == c.ts && (p.eventType, p.attributes) == content(k, c)
    }

    /** One packet for each match of rule k, in order, with the packet's own time stamp. */
    ghost predicate RuleAnswers(st: Stacks, pkt: PubPkt, k: nat, result: seq<PubPkt>)
      requires k < |rules|
    {
      WellFormed(rules[k].r) && Shaped(rules[k].r, st)
      && var em := EmissionOf(st, pkt, k);
      |result| == |em.matches|
      && forall i :: 0 <= i < |result| ==> result[i].ts == pkt.ts && IsResult(k, em.aggs, em.matches[i], result[i])
    }

    /** The answers of the first n rules, one rule after the other. */
    ghost predicate Answers(sts: seq<Stacks>, pkt: PubPkt, n: nat, result: seq<PubPkt>)
      requires n <= |sts| && n <= |rules|
    {
      if n == 0 then result == []
      else exists cut :: 0 <= cut <= |result| && Answers(sts, pkt, n - 1, result[..cut]) && RuleAnswers(sts[n - 1], pkt, n - 1, result[cut..])
    }

    /** The packet through one rule. */
    method ProcessRule(pkt: PubPkt, k: nat, ghost held: multiset<PubPkt>) returns (results: seq<Composite>)
      requires Accounts(held) && k < |rules| && pkt in held
      modifies rules, pool`refs, pool`freed
      ensures Accounts(held)
      ensures StacksOf(rules) == old(StacksOf(rules))[k := Stepped(old(StacksOf(rules))[k], pkt, k)]
      ensures var st, w := old(StacksOf(rules)[k]), interest(pkt, k);
              WellFormed(rules[k].r) && Shaped(rules[k].r, st)
              && Generated(rules[k].r, st, Input(pkt, w.states, w.negs, w.aggs), results)
    {
      hide Generated, Step, Accounted, HeldIn, Books, AllReady;
      ghost var sts, refs := StacksOf(rules), pool.refs;
      assert WiredAt(k);
      BooksIn(refs, sts, held, pkt);
      BooksChange(sts, k, sts[k], refs, held, refs);
      results := StepRule(rules, k, pool, pkt, interest(pkt, k));
      BooksChange(sts, k, StacksOf(rules)[k], refs, held, pool.refs);
    }

    /** A packet at an address never used before, with one reference, which the engine holds. */
    method NewPacket(eventType: int32, ts: nat, attributes: seq<Attribute>, ghost held: multiset<PubPkt>) returns (p: PubPkt)
      requires Accounts(held)
      modifies pool`refs, pool`born
      ensures Accounts(held + multiset{p}) && p !in old(pool.born)
      ensures p.eventType == eventType && p.ts == ts && p.attributes == attributes
    {
      var id := FreshId(pool.born);
      p := PubPkt(id, eventType, ts, attributes);
      BooksAdd(pool.refs, StacksOf(rules), held, p);
      pool.Create(p);
    }

    lemma HeldIsBorn(held: multiset<PubPkt>, p: PubPkt)
      requires Accounts(held) && p in held
      ensures p in pool.born
    {
      hide Books;
      BooksIn(pool.refs, StacksOf(rules), held, p);
    }

    method Drop(p: PubPkt, ghost held: multiset<PubPkt>)
      requires Accounts(held + multiset{p})
      modifies pool`refs, pool`freed
      ensures Accounts(held)
    {
      hide Books, AllReady, Wired;
      BooksDrop(pool.refs, StacksOf(rules), held, p);
      pool.Release(p);
    }

    /** `p` carries the composite event `c` of rule k. */
    predicate Carries(p: PubPkt, k: nat, c: Composite) {
      p.ts == c.ts && (p.eventType, p.attributes) == content(k, c)
    }

    /** The composite events of one rule become packets, in order. */
    method Publish(k: nat, composites: seq<Composite>, ghost held: multiset<PubPkt>) returns (results: seq<PubPkt>)
      requires Accounts(held)
      modifies pool`refs, pool`born
      ensures Accounts(held + multiset(results)) && |results| == |composites|
      ensures forall i :: 0 <= i < |composites| ==> Carries(results[i], k, composites[i])
    {
      hide Books, AllReady, Wired;
      results := [];
      var i := 0;
      assert held + multiset(results) == held;
      while i < |composites|
        invariant 0 <= i == |results| <= |composites| && Accounts(held + multiset(results))
        invariant forall j :: 0 <= j < i ==> Carries(results[j], k, composites[j])
      {
        var c := content(k, composites[i]);
        var p := NewPacket(c.0, composites[i].ts, c.1, held + multiset(results));
        assert held + multiset(results) + multiset{p} == held + multiset(results + [p]);
        results := results + [p];
        i := i + 1;
      }
    }

    /** Packets that carry a rule's composite events answer the packet that completed them. */
    lemma PublishedAnswers(st: Stacks, pkt: PubPkt, k: nat, composites: seq<Composite>, result: seq<PubPkt>)
      requires k < |rules| && WellFormed(rules[k].r) && Shaped(rules[k].r, st)
      requires var w := interest(pkt, k); Generated(rules[k].r, st, Input(pkt, w.states, w.negs, w.aggs), composites)
      requires |result| == |composites| && forall i :: 0 <= i < |composites| ==> Carries(result[i], k, composites[i])
      ensures RuleAnswers(st, pkt, k, result)
    {
      hide Step, IsComposite, WellFormed;
      var w := interest(pkt, k);
      ResultsStamped(rules[k].r, st, Input(pkt, w.states, w.negs, w.aggs), composites);
      var em := EmissionOf(st, pkt, k);
      forall i | 0 <= i < |result| ensures result[i].ts == pkt.ts && IsResult(k, em.aggs, em.matches[i], result[i]) {
        assert IsComposite(rules[k].r, em.aggs, em.matches[i], composites[i]) && Carries(result[i], k, composites[i]);
      }
    }

    /** One more rule. */
    lemma AnswersMore(sts: seq<Stacks>, pkt: PubPkt, n: nat, result: seq<PubPkt>, more: seq<PubPkt>)
      requires n < |sts| && n < |rules| && Answers(sts, pkt, n, result) && RuleAnswers(sts[n], pkt, n, more)
      ensures Answers(sts, pkt, n + 1, result + more)
    {
      hide RuleAnswers;
      var all := result + more;
      assert all[..|result|] == result && all[|result|..] == more;
    }

    /** The packet through all rules: every rule takes its step once, and the result is one
        packet for each of its matches. */
    method RunRules(pkt: PubPkt, ghost held: multiset<PubPkt>) returns (result: seq<PubPkt>)
      requires Accounts(held) && pkt in held
      modifies rules, pool
      ensures Accounts(held + multiset(result))
      ensures StacksOf(rules) == SteppedTo(old(StacksOf(rules)), pkt, |rules|)
      ensures Answers(old(StacksOf(rules)), pkt, |rules|, result)
    {
      hide Books, AllReady, Wired, Stepped, RuleAnswers;
      ghost var sts := StacksOf(rules);
      result := [];
      assert held + multiset(result) == held;
      var k := 0;
      while k < |rules|
        invariant 0 <= k <= |rules| && Accounts(held + multiset(result))
        invariant StacksOf(rules) == SteppedTo(sts, pkt, k)
        invariant Answers(sts, pkt, k, result)
      {
        var more := NextRule(pkt, k, held, result);
        AnswersMore(sts, pkt, k, result, more);
        result := result + more;
        k := k + 1;
      }
    }

    method NextRule(pkt: PubPkt, k: nat, ghost held: multiset<PubPkt>, ghost result: seq<PubPkt>) returns (more: seq<PubPkt>)
      requires Accounts(held + multiset(result)) && pkt in held && k < |rules|
      modifies rules, pool
      ensures Accounts(held + multiset(result + more))
      ensures StacksOf(rules) == old(StacksOf(rules))[k := Stepped(old(StacksOf(rules))[k], pkt, k)]
      ensures RuleAnswers(old(StacksOf(rules)[k]), pkt, k, more)
    {
      hide Books, AllReady, Wired, Stepped, RuleAnswers, Generated;
      ghost var all, st := held + multiset(result), StacksOf(rules)[k];
      var composites := ProcessRule(pkt, k, all);
      more := Publish(k, composites, all);
      AddOne(held, pkt, result, more);
      PublishedAnswers(st, pkt, k, composites, more);
    }

    // -------------------------------------------------------------- recursion

    ghost function State(): Moment
      reads this, rules
    {
      Moment(StacksOf(rules), recursionDepth, notified, history)
    }

    /** What one round does with a packet it has not seen: every rule takes its step, the
        listeners are told, and the results are handled in any order. */
    ghost predicate RoundLeads(s: Moment, pkt: PubPkt, s': Moment)
      decreases MAX_RECURSION_DEPTH - s.depth, 2, 0
    {
      |s.stacks| == |rules| && s.depth <= MAX_RECURSION_DEPTH && pkt !in s.history
      && exists result: seq<PubPkt> ::
           Answers(s.stacks, pkt, |rules|, result) && ResultsLead(AfterRules(s, pkt, result), multiset(result), s')
    }

    ghost function AfterRules(s: Moment, pkt: PubPkt, result: seq<PubPkt>): Moment
      requires |s.stacks| == |rules|
    {
      Moment(SteppedTo(s.stacks, pkt, |rules|), s.depth, s.notified + [result], s.history + [pkt])
    }

    ghost predicate ResultsLead(s: Moment, rest: multiset<PubPkt>, s': Moment)
      decreases MAX_RECURSION_DEPTH - s.depth, 1, |rest|
    {
      if rest == multiset{} then s' == s
      else exists p: PubPkt, mid: Moment ::
        p in rest && s.depth <= mid.depth <= MAX_RECURSION_DEPTH && ResultLeads(s, p, mid) && ResultsLead(mid, rest - multiset{p}, s')
    }

    /** A result starts a round of its own, with a copy, as long as the depth allows. */
    ghost predicate ResultLeads(s: Moment, p: PubPkt, s': Moment)
      decreases MAX_RECURSION_DEPTH - s.depth, 0, 0
    {
      if recursionNeeded && s.depth < MAX_RECURSION_DEPTH then
        exists copy: PubPkt :: copy == p.(id := copy.id) && RoundLeads(s.(depth := s.depth + 1), copy, s')
      else s' == s
    }

    /** The packet through all rules, the listeners told of what it leads to. */
    method Report(pkt: PubPkt, ghost others: multiset<PubPkt>) returns (result: seq<PubPkt>)
      requires Accounts(others + multiset{pkt})
      modifies this`notified, this`history, rules, pool
      ensures Accounts(others + multiset(result))
      ensures Answers(old(StacksOf(rules)), pkt, |rules|, result) && State() == AfterRules(old(State()), pkt, result)
    {
      hide Books, SteppedTo, AllReady, Wired, Answers;
      HeldIsBorn(others + multiset{pkt}, pkt);
      history := history + [pkt];
      result := RunRules(pkt, others + multiset{pkt});
      AddOne(others, pkt, result, []);
      Drop(pkt, others + multiset(result));
      notified := notified + [result];
    }

    /** One engine round. A round started by a result finds the depth already increased, and
        no round ever decreases it. */
    method Round(pkt: PubPkt, ghost others: multiset<PubPkt>)
      requires Accounts(others + multiset{pkt}) && recursionDepth <= MAX_RECURSION_DEPTH && pkt !in history
      modifies this`recursionDepth, this`notified, this`history, rules, pool
      ensures Accounts(others)
      ensures RoundLeads(old(State()), pkt, State())
      ensures recursionNeeded ==> Spreads(old(State()), 1, State()) && old(history) + [pkt] <= history
      ensures !recursionNeeded ==> history == old(history) + [pkt]
      ensures old(recursionDepth) <= recursionDepth <= MAX_RECURSION_DEPTH
      ensures |notified| == old(|notified|) + 1 + (recursionDepth - old(recursionDepth))
      ensures !recursionNeeded ==> recursionDepth == old(recursionDepth)
      ensures !recursionNeeded ==> StacksOf(rules) == SteppedTo(old(StacksOf(rules)), pkt, |rules|)
      decreases MAX_RECURSION_DEPTH - recursionDepth, 2
    {
      hide Books, SteppedTo, AllReady, Wired, Answers, ResultsLead;
      var result := Report(pkt, others);
      HandleResults(result, others);
      if recursionNeeded { RoundSpreads(old(State()), pkt, State()); } else { RoundStops(old(State()), pkt, State()); }
    }

    /** Every result, in some order. */
    method HandleResults(result: seq<PubPkt>, ghost others: multiset<PubPkt>)
      requires Accounts(others + multiset(result)) && recursionDepth <= MAX_RECURSION_DEPTH
      modifies this`recursionDepth, this`notified, this`history, rules, pool
      ensures Accounts(others)
      ensures ResultsLead(old(State()), multiset(result), State())
      ensures old(recursionDepth) <= recursionDepth <= MAX_RECURSION_DEPTH
      ensures |notified| == old(|notified|) + (recursionDepth - old(recursionDepth))
      ensures !recursionNeeded ==> recursionDepth == old(recursionDepth) && StacksOf(rules) == old(StacksOf(rules))
      decreases MAX_RECURSION_DEPTH - recursionDepth, 1
    {
      hide Books, AllReady, Wired, ResultLeads;
      var rest := multiset(result);
      while rest != multiset{}
        invariant Accounts(others + rest)
        invariant forall s' :: ResultsLead(State(), rest, s') ==> ResultsLead(old(State()), multiset(result), s')
        invariant old(recursionDepth) <= recursionDepth <= MAX_RECURSION_DEPTH
        invariant |notified| == old(|notified|) + (recursionDepth - old(recursionDepth))
        invariant !recursionNeeded ==> recursionDepth == old(recursionDepth) && StacksOf(rules) == old(StacksOf(rules))
        decreases |rest|
      {
        var p :| p in rest;
        TakeOne(others, rest, p);
        HandleResult(p, others + (rest - multiset{p}));
        rest := rest - multiset{p};
      }
      assert others + rest == others;
    }

    /** A result is copied into a round of its own while the depth allows, then dropped: the copy
        goes through the rules unless the recursion has come to its end. */
    method HandleResult(p: PubPkt, ghost others: multiset<PubPkt>)
      requires Accounts(others + multiset{p}) && recursionDepth <= MAX_RECURSION_DEPTH
      modifies this`recursionDepth, this`notified, this`history, rules, pool
      ensures Accounts(others)
      ensures ResultLeads(old(State()), p, State())
      ensures recursionNeeded ==> FedOne(p, old(State()), State()) && Spreads(old(State()), 1, State())
      ensures !recursionNeeded ==> history == old(history) && notified == old(notified)
      ensures old(recursionDepth) <= recursionDepth <= MAX_RECURSION_DEPTH
      ensures |notified| == old(|notified|) + (recursionDepth - old(recursionDepth))
      ensures !recursionNeeded ==> recursionDepth == old(recursionDepth) && StacksOf(rules) == old(StacksOf(rules))
      decreases MAX_RECURSION_DEPTH - recursionDepth, 0
    {
      hide Books, AllReady, Wired, RoundLeads, SteppedTo;
      if recursionNeeded && recursionDepth < MAX_RECURSION_DEPTH {
        var copy := NewPacket(p.eventType, p.ts, p.attributes, others + multiset{p});
        recursionDepth := recursionDepth + 1;
        assert State() == old(State()).(depth := recursionDepth);
        Round(copy, others + multiset{p});
      }
      Drop(p, others);
      if recursionNeeded { ResultSpreads(old(State()), p, State()); }
    }

    /** An external publication: the engine moves as the rounds prescribe, counts are exact
        afterwards, and it costs at most eleven rounds. A recursive engine feeds back everything
        it reports, and nothing else, until the depth reaches 10. */
    method ProcessPubPkt(eventType: int32, ts: nat, attributes: seq<Attribute>) returns (pkt: PubPkt)
      requires Valid()
      modifies this`recursionDepth, this`notified, this`history, rules, pool
      ensures Valid()
      ensures pkt !in old(pool.born) && pkt.eventType == eventType && pkt.ts == ts && pkt.attributes == attributes
      ensures RoundLeads(old(State()).(depth := 0), pkt, State())
      ensures |notified| == old(|notified|) + 1 + recursionDepth && recursionDepth <= 10
      ensures old(history) + [pkt] <= history && (!recursionNeeded ==> history == old(history) + [pkt])
      ensures recursionNeeded ==> forall i, p :: old(|notified|) <= i < |notified| && p in notified[i] ==> FedOne(p, old(State()), State())
      ensures recursionNeeded && recursionDepth < 10 ==> |history| == old(|history|) + 1 + TotalReported(notified[old(|notified|)..])
      ensures !recursionNeeded ==> StacksOf(rules) == SteppedTo(old(StacksOf(rules)), pkt, |rules|)
    {
      hide Books, AllReady, Wired, RoundLeads, FedOne, TotalReported;
      pkt := NewPacket(eventType, ts, attributes, multiset{});
      assert multiset{} + multiset{pkt} == multiset{pkt};
      recursionDepth := 0;
      assert State() == old(State()).(depth := 0);
      Round(pkt, multiset{});
      if recursionNeeded { SpreadFed(old(State()), old(State()).(depth := 0), State()); }
    }

    // -------------------------------------------------------------- the recursion happens

    /** From `s` to `s'`, packets of the collection have gone through the rules, but for the
        identifier, unless the recursion has come to its end. */
    ghost predicate Fed(ps: seq<PubPkt>, s: Moment, s': Moment) {
      forall p :: p in ps ==> FedOne(p, s, s')
    }

    /** The rounds of a recursive engine: whatever they report goes through the rules, and they
        are as many as were due and reported, until the depth has reached its limit. */
    ghost predicate Spreads(s: Moment, due: nat, s': Moment) {
      && s.history <= s'.history && s.notified <= s'.notified && s.depth <= s'.depth <= 10
      && (forall i :: |s.notified| <= i < |s'.notified| ==> Fed(s'.notified[i], s, s'))
      && (s'.depth < 10 ==> |s'.history| == |s.history| + due + TotalReported(s'.notified[|s.notified|..]))
    }

    lemma SpreadsOn(s: Moment, due: nat, mid: Moment, due': nat, s': Moment)
      requires Spreads(s, due, mid) && Spreads(mid, due', s')
      ensures Spreads(s, due + due', s')
      ensures forall ps :: Fed(ps, s, mid) ==> Fed(ps, s, s')
    {
      hide TotalReported;
      var a, b := mid.notified[|s.notified|..], s'.notified[|mid.notified|..];
      assert s'.notified[|s.notified|..] == a + b;
      TotalReportedAppend(a, b);
      forall p | FedOne(p, s, mid) ensures FedOne(p, s, s') { FedStill(p, s, mid, s'); }
      forall p | FedOne(p, mid, s') ensures FedOne(p, s, s') { FedEarlier(p, s, mid, s'); }
      forall i | |s.notified| <= i < |s'.notified| ensures Fed(s'.notified[i], s, s') {
        if i < |mid.notified| { assert s'.notified[i] == mid.notified[i] && Fed(mid.notified[i], s, mid); }
      }
    }

    lemma FedStill(p: PubPkt, s: Moment, mid: Moment, s': Moment)
      requires FedOne(p, s, mid) && mid.history <= s'.history && mid.depth <= s'.depth <= 10
      ensures FedOne(p, s, s')
    {
      if mid.depth < 10 {
        var i :| |s.history| <= i < |mid.history| && mid.history[i] == p.(id := mid.history[i].id);
        assert s'.history[i] == mid.history[i];
      }
    }

    lemma FedEarlier(p: PubPkt, s: Moment, mid: Moment, s': Moment)
      requires FedOne(p, mid, s') && s.history <= mid.history
      ensures FedOne(p, s, s')
    {
    }

    /** Main result: what a round of a recursive engine reports, at any depth, goes through the
        rules in turn. */
    lemma {:induction false} RoundSpreads(s: Moment, pkt: PubPkt, s': Moment)
      requires recursionNeeded && RoundLeads(s, pkt, s')
      ensures Spreads(s, 1, s') && s.history + [pkt] <= s'.history
      decreases MAX_RECURSION_DEPTH - s.depth, 2, 0
    {
      hide Answers, SteppedTo, ResultsLead, Spreads, Fed, FedOne;
      var result :| Answers(s.stacks, pkt, |rules|, result) && ResultsLead(AfterRules(s, pkt, result), multiset(result), s');
      ResultsSpread(AfterRules(s, pkt, result), multiset(result), s');
      AfterRulesSpreads(s, pkt, result, s');
    }

    lemma AfterRulesSpreads(s: Moment, pkt: PubPkt, result: seq<PubPkt>, s': Moment)
      requires |s.stacks| == |rules| && s.depth <= MAX_RECURSION_DEPTH
      requires Spreads(AfterRules(s, pkt, result), |result|, s') && forall p :: p in multiset(result) ==> FedOne(p, AfterRules(s, pkt, result), s')
      ensures Spreads(s, 1, s') && s.history + [pkt] <= s'.history
    {
      hide TotalReported, SteppedTo;
      var mid := AfterRules(s, pkt, result);
      var b := s'.notified[|mid.notified|..];
      assert s'.notified[|s.notified|..] == [result] + b;
      assert ([result] + b)[1..] == b;
      TotalReportedMore([result] + b);
      forall i | |s.notified| <= i < |s'.notified| ensures Fed(s'.notified[i], s, s') {
        if i == |s.notified| { assert s'.notified[i] == result; } else { assert Fed(s'.notified[i], mid, s'); }
        forall p | p in s'.notified[i] ensures FedOne(p, s, s') { FedEarlier(p, s, mid, s'); }
      }
    }

    lemma FirstResult(s: Moment, rest: multiset<PubPkt>, s': Moment) returns (p: PubPkt, mid: Moment)
      requires s.depth <= MAX_RECURSION_DEPTH && rest != multiset{} && ResultsLead(s, rest, s')
      ensures p in rest && s.depth <= mid.depth <= MAX_RECURSION_DEPTH && ResultLeads(s, p, mid) && ResultsLead(mid, rest - multiset{p}, s')
      ensures |rest| == |rest - multiset{p}| + 1
    {
      hide ResultLeads;
      p, mid :| p in rest && s.depth <= mid.depth <= MAX_RECURSION_DEPTH && ResultLeads(s, p, mid) && ResultsLead(mid, rest - multiset{p}, s');
    }

    lemma NoResult(s: Moment, s': Moment)
      requires s.depth <= MAX_RECURSION_DEPTH && ResultsLead(s, multiset{}, s')
      ensures s' == s
    {
    }

    lemma {:induction false} ResultsSpread(s: Moment, rest: multiset<PubPkt>, s': Moment)
      requires recursionNeeded && s.depth <= MAX_RECURSION_DEPTH && ResultsLead(s, rest, s')
      ensures Spreads(s, |rest|, s') && forall p :: p in rest ==> FedOne(p, s, s')
      decreases MAX_RECURSION_DEPTH - s.depth, 1, |rest|
    {
      hide ResultLeads, ResultsLead, Spreads, FedOne;
      if rest == multiset{} {
        NoResult(s, s');
        NothingSpreads(s);
      } else {
        var p, mid := FirstResult(s, rest, s');
        ResultSpreads(s, p, mid);
        ResultsSpread(mid, rest - multiset{p}, s');
        MoreSpreads(s, p, mid, |rest - multiset{p}|, s');
        AllFed(s, rest, p, mid, s');
      }
    }

    lemma NothingSpreads(s: Moment)
      requires s.depth <= MAX_RECURSION_DEPTH
      ensures Spreads(s, 0, s)
    {
      assert s.notified[|s.notified|..] == [];
    }

    lemma MoreSpreads(s: Moment, p: PubPkt, mid: Moment, due: nat, s': Moment)
      requires Spreads(s, 1, mid) && FedOne(p, s, mid) && Spreads(mid, due, s')
      ensures Spreads(s, due + 1, s') && FedOne(p, s, s')
    {
      hide FedOne, Fed;
      SpreadsOn(s, 1, mid, due, s');
      FedStill(p, s, mid, s');
    }

    lemma AllFed(s: Moment, rest: multiset<PubPkt>, p: PubPkt, mid: Moment, s': Moment)
      requires FedOne(p, s, s') && Spreads(s, 1, mid) && forall q :: q in rest - multiset{p} ==> FedOne(q, mid, s')
      ensures forall q :: q in rest ==> FedOne(q, s, s')
    {
      hide FedOne, Fed, TotalReported;
      forall q | q in rest ensures FedOne(q, s, s') {
        if q != p {
          assert q in rest - multiset{p};
          FedEarlier(q, s, mid, s');
        }
      }
    }

    lemma {:induction false} ResultSpreads(s: Moment, p: PubPkt, s': Moment)
      requires recursionNeeded && s.depth <= MAX_RECURSION_DEPTH && ResultLeads(s, p, s')
      ensures Spreads(s, 1, s') && FedOne(p, s, s')
      decreases MAX_RECURSION_DEPTH - s.depth, 0, 0
    {
      hide RoundLeads, Fed;
      if s.depth < MAX_RECURSION_DEPTH {
        var copy: PubPkt :| copy == p.(id := copy.id) && RoundLeads(s.(depth := s.depth + 1), copy, s');
        RoundSpreads(s.(depth := s.depth + 1), copy, s');
        assert s'.history[|s.history|] == copy;
        forall i | |s.notified| <= i < |s'.notified| ensures Fed(s'.notified[i], s, s') {
          assert Fed(s'.notified[i], s.(depth := s.depth + 1), s');
          SameHistory(s'.notified[i], s, s.(depth := s.depth + 1), s');
        }
      } else {
        NothingSpreads(s);
        assert s'.notified[|s.notified|..] == [];
      }
    }

    lemma SpreadFed(s: Moment, t: Moment, s': Moment)
      requires s.history == t.history && s.notified == t.notified && Spreads(t, 1, s')
      ensures forall i, p :: |s.notified| <= i < |s'.notified| && p in s'.notified[i] ==> FedOne(p, s, s')
      ensures s'.depth < 10 ==> |s'.history| == |s.history| + 1 + TotalReported(s'.notified[|s.notified|..])
    {
      hide TotalReported;
      forall i, p | |s.notified| <= i < |s'.notified| && p in s'.notified[i] ensures FedOne(p, s, s') {
        assert Fed(s'.notified[i], t, s') && FedOne(p, t, s');
      }
    }

    lemma SameHistory(ps: seq<PubPkt>, s: Moment, t: Moment, s': Moment)
      requires s.history == t.history && Fed(ps, t, s')
      ensures Fed(ps, s, s')
    {
      forall p | p in ps ensures FedOne(p, s, s') { assert FedOne(p, t, s'); }
    }

    /** An engine without recursion stops after one round. */
    lemma RoundStops(s: Moment, pkt: PubPkt, s': Moment)
      requires !recursionNeeded && RoundLeads(s, pkt, s')
      ensures s'.history == s.history + [pkt] && |s'.notified| == |s.notified| + 1 && s'.depth == s.depth
    {
      hide Answers, SteppedTo;
      var result :| Answers(s.stacks, pkt, |rules|, result) && ResultsLead(AfterRules(s, pkt, result), multiset(result), s');
      ResultsStop(AfterRules(s, pkt, result), multiset(result), s');
    }

    lemma {:induction false} ResultsStop(s: Moment, rest: multiset<PubPkt>, s': Moment)
      requires !recursionNeeded && s.depth <= MAX_RECURSION_DEPTH && ResultsLead(s, rest, s')
      ensures s' == s
      decreases |rest|
    {
      if rest != multiset{} {
        var p: PubPkt, mid: Moment :| p in rest && s.depth <= mid.depth <= MAX_RECURSION_DEPTH && ResultLeads(s, p, mid)
                      && ResultsLead(mid, rest - multiset{p}, s');
        ResultsStop(mid, rest - multiset{p}, s');
      }
    }

    // -------------------------------------------------------------- what listeners are told

    lemma RuleStamped(st: Stacks, pkt: PubPkt, k: nat, result: seq<PubPkt>)
      requires k < |rules| && RuleAnswers(st, pkt, k, result)
      ensures forall p :: p in result ==> p.ts == pkt.ts
    {
      hide IsResult, Step, WellFormed;
    }

    lemma {:induction false} AnswersStamped(sts: seq<Stacks>, pkt: PubPkt, n: nat, result: seq<PubPkt>)
      requires n <= |sts| && n <= |rules| && Answers(sts, pkt, n, result)
      ensures forall p :: p in result ==> p.ts == pkt.ts
    {
      hide RuleAnswers;
      if n > 0 {
        var cut :| 0 <= cut <= |result| && Answers(sts, pkt, n - 1, result[..cut]) && RuleAnswers(sts[n - 1], pkt, n - 1, result[cut..]);
        AnswersStamped(sts, pkt, n - 1, result[..cut]);
        RuleStamped(sts[n - 1], pkt, n - 1, result[cut..]);
        assert result == result[..cut] + result[cut..];
      }
    }

    /** From `s` to `s'` listeners were told of packets with time stamp `ts` only. */
    ghost predicate ToldAt(s: Moment, s': Moment, ts: nat) {
      s.notified <= s'.notified
      && forall i :: |s.notified| <= i < |s'.notified| ==> forall p :: p in s'.notified[i] ==> p.ts == ts
    }

    /** Main result: everything a publication makes the engine report, at any depth of the
        recursion, carries the publication's own time stamp. */
    lemma {:induction false} AllStamped(s: Moment, pkt: PubPkt, s': Moment)
      requires RoundLeads(s, pkt, s')
      ensures ToldAt(s, s', pkt.ts)
      decreases MAX_RECURSION_DEPTH - s.depth, 2, 0
    {
      hide Answers, SteppedTo, ResultsLead;
      var result :| Answers(s.stacks, pkt, |rules|, result) && ResultsLead(AfterRules(s, pkt, result), multiset(result), s');
      AnswersStamped(s.stacks, pkt, |rules|, result);
      ResultsStampedAt(AfterRules(s, pkt, result), multiset(result), s', pkt.ts);
    }

    lemma {:induction false} ResultsStampedAt(s: Moment, rest: multiset<PubPkt>, s': Moment, ts: nat)
      requires ResultsLead(s, rest, s') && forall p :: p in rest ==> p.ts == ts
      ensures ToldAt(s, s', ts)
      decreases MAX_RECURSION_DEPTH - s.depth, 1, |rest|
    {
      hide ResultLeads;
      if rest != multiset{} {
        var p: PubPkt, mid: Moment :| p in rest && s.depth <= mid.depth <= MAX_RECURSION_DEPTH && ResultLeads(s, p, mid)
                      && ResultsLead(mid, rest - multiset{p}, s');
        ResultStampedAt(s, p, mid);
        ResultsStampedAt(mid, rest - multiset{p}, s', ts);
      }
    }

    lemma {:induction false} ResultStampedAt(s: Moment, p: PubPkt, s': Moment)
      requires ResultLeads(s, p, s')
      ensures ToldAt(s, s', p.ts)
      decreases MAX_RECURSION_DEPTH - s.depth, 0, 0
    {
      hide RoundLeads;
      if recursionNeeded && s.depth < MAX_RECURSION_DEPTH {
        var copy: PubPkt :| copy == p.(id := copy.id) && RoundLeads(s.(depth := s.depth + 1), copy, s');
        AllStamped(s.(depth := s.depth + 1), copy, s');
      }
    }

    /** Between publications a packet's count is the number of its stored occurrences, so it
        is deleted exactly when no stack of any rule holds it. */
    lemma FreedExactly(p: PubPkt)
      requires Valid() && p in pool.born
      ensures pool.refs[p] == TotalHeld(StacksOf(rules))[p]
      ensures p in pool.freed <==> p !in TotalHeld(StacksOf(rules))
    {
      BooksTotal(pool.refs, StacksOf(rules), multiset{});
      assert pool.refs[p] == (TotalHeld(StacksOf(rules)) + multiset{})[p];
    }
  }
}
