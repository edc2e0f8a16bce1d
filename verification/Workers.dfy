/** One publisher and its workers: mutexes, condition variables and a countdown barrier. */
module Workers {

  datatype Option<T> = None | Some(value: T)

  /** Where a worker stands in its loop. `Waiting` is inside the wait on its own condition,
      with its mutex released; `Notified` has been signalled and must take the mutex back. */
  datatype WorkerPc =
    Waiting | Notified | Woken | Working | AtProcess | AtResult | Counting | Testing | Counted | Rewaiting

  /** Where the publisher stands; `Locking(i)` to `Unlocking(i)` serve worker i. */
  datatype PublisherPc =
    | Idle
    | Locking(i: nat) | Installing(i: nat) | Signalling(i: nat) | Unlocking(i: nat)
    | AskResult | Checking | Sleeping | Alerted | Releasing | Resetting
    | Collecting(i: nat)

  datatype Owner = Free | Publisher | Worker(i: nat)

  /** A worker and the memory it shares with the publisher. Events are numbered in publication
      order: `slot` is the one installed, which a working worker reads as often as it likes and
      without the mutex, `seen` those handled, `result` those whose results wait to be collected,
      `collected` those collected. `owes` tells whether the worker has yet to count itself down
      for the current event. */
  datatype Share = Share(pc: WorkerPc, mutex: Owner, slot: int, seen: seq<int>, result: seq<int>,
                         collected: seq<int>, owes: bool)

  datatype Sys = Sys(w: seq<Share>, p: PublisherPc, res: Owner, still: int, published: nat)

  function Init(n: nat): Sys {
    Sys(seq(n, _ => Share(Waiting, Free, -1, [], [], [], false)), Idle, Free, n, 0)
  }

  /** One step of worker i, or None while it is blocked. */
  function WorkerStep(s: Sys, i: nat): Option<Sys>
    requires i < |s.w|
  {
    var x := s.w[i];
    match x.pc
    case Waiting => None
    case Notified => if x.mutex != Free then None else Some(s.(w := s.w[i := x.(pc := Woken, mutex := Worker(i))]))
    case Woken => Some(s.(w := s.w[i := x.(pc := Working, mutex := Free)]))
    case Working => Some(s.(w := s.w[i := x.(pc := AtProcess, seen := x.seen + [x.slot], result := x.result + [x.slot])]))
    case AtProcess => if x.mutex != Free then None else Some(s.(w := s.w[i := x.(pc := AtResult, mutex := Worker(i))]))
    case AtResult => if s.res != Free then None else Some(s.(w := s.w[i := x.(pc := Counting)], res := Worker(i)))
    case Counting => Some(s.(w := s.w[i := x.(pc := Testing, owes := false)], still := s.still - 1))
    case Testing => Some(s.(w := s.w[i := x.(pc := Counted)], p := if s.still == 0 && s.p == Sleeping then Alerted else s.p))
    case Counted => Some(s.(w := s.w[i := x.(pc := Rewaiting)], res := Free))
    case Rewaiting => Some(s.(w := s.w[i := x.(pc := Waiting, mutex := Free)]))
  }

  /** One step of the publisher within a publication, or None while it is blocked or idle. */
  function PublisherStep(s: Sys): Option<Sys> {
    if (s.p.Locking? || s.p.Installing? || s.p.Signalling? || s.p.Unlocking? || s.p.Collecting?) && s.p.i >= |s.w| then None
    else match s.p
    case Idle => None
    case Locking(i) =>
      if s.w[i].mutex != Free then None else Some(s.(p := Installing(i), w := s.w[i := s.w[i].(mutex := Publisher)]))
    case Installing(i) => Some(s.(p := Signalling(i), w := s.w[i := s.w[i].(slot := s.published - 1)]))
    case Signalling(i) =>
      Some(s.(p := Unlocking(i), w := s.w[i := s.w[i].(pc := if s.w[i].pc == Waiting then Notified else s.w[i].pc)]))
    case Unlocking(i) =>
      Some(s.(p := if i + 1 < |s.w| then Locking(i + 1) else AskResult, w := s.w[i := s.w[i].(mutex := Free)]))
    case AskResult => if s.res != Free then None else Some(s.(p := Checking, res := Publisher))
    case Checking => if s.still != 0 then Some(s.(p := Sleeping, res := Free)) else Some(s.(p := Releasing))
    case Sleeping => None
    case Alerted => if s.res != Free then None else Some(s.(p := Releasing, res := Publisher))
    case Releasing => Some(s.(p := Resetting, res := Free))
    case Resetting => Some(s.(p := if |s.w| > 0 then Collecting(0) else Idle, still := |s.w|))
    case Collecting(i) =>
      var x := s.w[i];
      Some(s.(p := if i + 1 < |s.w| then Collecting(i + 1) else Idle,
              w := s.w[i := x.(collected := x.collected + x.result, result := [])]))
  }

  /** A new publication starts. */
  function Publish(s: Sys): Option<Sys> {
    if s.p != Idle || |s.w| == 0 then None
    else Some(s.(p := Locking(0), published := s.published + 1, w := AllOwe(s.w)))
  }

  function AllOwe(w: seq<Share>): seq<Share> {
    seq(|w|, j requires 0 <= j < |w| => w[j].(owes := true))
  }

  datatype Action = Work(i: nat) | Proceed | Start

  function Next(s: Sys, a: Action): Option<Sys> {
    match a
    case Work(i) => if i < |s.w| then WorkerStep(s, i) else None
    case Proceed => PublisherStep(s)
    case Start => Publish(s)
  }

  // ---------------------------------------------------------------- invariant

  /** The events published before the n-th. */
  function UpTo(n: int): seq<int> {
    if n <= 0 then [] else UpTo(n - 1) + [n - 1]
  }

  /** How many workers have yet to count themselves down. */
  function Owing(w: seq<Share>): nat {
    if w == [] then 0 else (if w[0].owes then 1 else 0) + Owing(w[1..])
  }

  /** Worker j has been signalled for the current event. */
  predicate Signalled(p: PublisherPc, j: nat) {
    match p
    case Locking(i) => j < i
    case Installing(i) => j < i
    case Signalling(i) => j < i
    case Unlocking(i) => j <= i
    case _ => true
  }

  /** The current event is in worker j's slot. */
  predicate Installed(p: PublisherPc, j: nat) {
    Signalled(p, j) || p == Signalling(j)
  }

  /** Worker j's results have been collected. */
  predicate Gathered(p: PublisherPc, j: nat) {
    p == Idle || (p.Collecting? && j < p.i)
  }

  predicate HoldsMutex(pc: WorkerPc) {
    pc.Woken? || pc.AtResult? || HoldsResult(pc) || pc.Rewaiting?
  }

  predicate HoldsResult(pc: WorkerPc) {
    pc.Counting? || pc.Testing? || pc.Counted?
  }

  /** The publisher holds worker j's mutex. */
  predicate Serves(p: PublisherPc, j: nat) {
    p == Installing(j) || p == Signalling(j) || p == Unlocking(j)
  }

  /** The publisher has learnt that nobody owes. */
  predicate Settled(p: PublisherPc) {
    p.Alerted? || PastBarrier(p)
  }

  predicate PastBarrier(p: PublisherPc) {
    p.Idle? || p.Releasing? || p.Resetting? || p.Collecting?
  }

  predicate Handled(x: Share) {
    !x.owes || x.pc.AtProcess? || x.pc.AtResult? || x.pc.Counting?
  }

  /** The control state of worker j. */
  ghost predicate PcInv(p: PublisherPc, j: nat, x: Share) {
    && (x.owes && !Signalled(p, j) ==> x.pc.Waiting? || x.pc.Rewaiting?)
    && (x.owes && Signalled(p, j) ==>
          x.pc.Notified? || x.pc.Woken? || x.pc.Working? || x.pc.AtProcess? || x.pc.AtResult? || x.pc.Counting?)
    && (!x.owes ==> Signalled(p, j) && (x.pc.Testing? || x.pc.Counted? || x.pc.Rewaiting? || x.pc.Waiting?))
    && (PastBarrier(p) ==> x.pc.Rewaiting? || x.pc.Waiting?)
    && (Settled(p) ==> !x.owes)
  }

  ghost predicate MutexInv(p: PublisherPc, j: nat, x: Share) {
    && x.mutex == (if Serves(p, j) then Publisher else if HoldsMutex(x.pc) then Worker(j) else Free)
    && (Serves(p, j) ==> !HoldsMutex(x.pc))
  }

  /** What worker j has handled, and what has been collected from it. */
  ghost predicate DataInv(p: PublisherPc, published: nat, j: nat, x: Share) {
    && (published > 0 && Installed(p, j) ==> x.slot == published - 1)
    && (x.pc.Working? ==> x.slot == published - 1)
    && x.seen == UpTo(if Handled(x) then published else published - 1)
    && (if Gathered(p, j) then x.result == [] && x.collected == UpTo(published)
        else x.collected == UpTo(published - 1) && x.result == if Handled(x) then [published - 1] else [])
  }

  ghost predicate ShareInv(p: PublisherPc, published: nat, res: Owner, j: nat, x: Share) {
    PcInv(p, j, x) && MutexInv(p, j, x) && DataInv(p, published, j, x) && (HoldsResult(x.pc) <==> res == Worker(j))
  }

  ghost predicate PublisherInv(s: Sys) {
    && (s.res == Publisher <==> s.p.Checking? || s.p.Releasing?)
    && (s.res.Worker? ==> s.res.i < |s.w|)
    && (s.p.Locking? || s.p.Installing? || s.p.Signalling? || s.p.Unlocking? || s.p.Collecting? ==> s.p.i < |s.w|)
    && (s.p != Idle ==> s.published > 0)
    && s.still == (if s.p == Idle || s.p.Collecting? then |s.w| else Owing(s.w))
    && (s.p == Sleeping && Owing(s.w) == 0 ==> s.res.Worker? && s.w[s.res.i].pc == Testing)
  }

  ghost predicate Inv(s: Sys) {
    && |s.w| > 0 && PublisherInv(s)
    && forall j :: 0 <= j < |s.w| ==> ShareInv(s.p, s.published, s.res, j, s.w[j])
  }

  lemma {:induction false} OwingUpdate(w: seq<Share>, i: nat, x: Share)
    requires i < |w|
    ensures Owing(w[i := x]) == Owing(w) - (if w[i].owes then 1 else 0) + (if x.owes then 1 else 0)
  {
    if i == 0 {
      assert w[0 := x][1..] == w[1..];
    } else {
      OwingUpdate(w[1..], i - 1, x);
      assert w[i := x][1..] == w[1..][i - 1 := x];
    }
  }

  lemma {:induction false} OwingNone(w: seq<Share>)
    ensures Owing(w) == 0 <==> forall j :: 0 <= j < |w| ==> !w[j].owes
    ensures (forall j :: 0 <= j < |w| ==> w[j].owes) ==> Owing(w) == |w|
  {
    if w != [] {
      OwingNone(w[1..]);
      assert forall j :: 0 < j < |w| ==> w[j] == w[1..][j - 1];
    }
  }

  lemma InitInv(n: nat)
    requires n > 0
    ensures Inv(Init(n))
  {
  }

  /** Up to the count. */
  lemma WorkerKeepsItselfEarly(s: Sys, i: nat)
    requires Inv(s) && i < |s.w| && WorkerStep(s, i).Some? && WorkerRank(s.w[i].pc) > 4
    ensures var t := WorkerStep(s, i).value; ShareInv(t.p, t.published, t.res, i, t.w[i])
  {
    hide Owing;
    assert ShareInv(s.p, s.published, s.res, i, s.w[i]);
  }

  /** From the count on. */
  lemma WorkerKeepsItselfLate(s: Sys, i: nat)
    requires Inv(s) && i < |s.w| && WorkerStep(s, i).Some? && WorkerRank(s.w[i].pc) <= 4
    ensures var t := WorkerStep(s, i).value; ShareInv(t.p, t.published, t.res, i, t.w[i])
  {
    assert ShareInv(s.p, s.published, s.res, i, s.w[i]);
    if s.w[i].pc == Testing { OwingNone(s.w); }
  }

  lemma WorkerKeepsOther(s: Sys, i: nat, j: nat)
    requires Inv(s) && i < |s.w| && WorkerStep(s, i).Some? && j < |s.w| && j != i
    ensures var t := WorkerStep(s, i).value; ShareInv(t.p, t.published, t.res, j, t.w[j])
  {
    assert ShareInv(s.p, s.published, s.res, i, s.w[i]) && ShareInv(s.p, s.published, s.res, j, s.w[j]);
    if s.w[i].pc == Testing { OwingNone(s.w); }
  }

  lemma WorkerKeepsPublisher(s: Sys, i: nat)
    requires Inv(s) && i < |s.w| && WorkerStep(s, i).Some?
    ensures PublisherInv(WorkerStep(s, i).value)
  {
    var t := WorkerStep(s, i).value;
    assert ShareInv(s.p, s.published, s.res, i, s.w[i]);
    OwingUpdate(s.w, i, t.w[i]);
  }

  lemma WorkerKeeps(s: Sys, i: nat)
    requires Inv(s) && i < |s.w| && WorkerStep(s, i).Some?
    ensures Inv(WorkerStep(s, i).value)
  {
    hide ShareInv, PublisherInv;
    if WorkerRank(s.w[i].pc) > 4 { WorkerKeepsItselfEarly(s, i); } else { WorkerKeepsItselfLate(s, i); }
    WorkerKeepsPublisher(s, i);
    forall j | 0 <= j < |s.w| && j != i
      ensures var t := WorkerStep(s, i).value; ShareInv(t.p, t.published, t.res, j, t.w[j])
    {
      WorkerKeepsOther(s, i, j);
    }
  }

  predicate Distributes(p: PublisherPc) {
    p.Locking? || p.Installing? || p.Signalling? || p.Unlocking?
  }

  lemma ServingKeepsShare(s: Sys)
    requires Inv(s) && PublisherStep(s).Some? && Distributes(s.p)
    ensures var t := PublisherStep(s).value; var j := s.p.i;
            j < |t.w| == |s.w| && ShareInv(t.p, t.published, t.res, j, t.w[j])
  {
    hide UpTo, Owing;
    assert ShareInv(s.p, s.published, s.res, s.p.i, s.w[s.p.i]);
  }

  lemma DistributingKeepsOther(s: Sys, j: nat)
    requires Inv(s) && PublisherStep(s).Some? && j < |s.w| && Distributes(s.p) && j != s.p.i
    ensures var t := PublisherStep(s).value; |t.w| == |s.w| && ShareInv(t.p, t.published, t.res, j, t.w[j])
  {
    hide UpTo, Owing;
    assert ShareInv(s.p, s.published, s.res, j, s.w[j]);
  }

  lemma BarrierKeepsShare(s: Sys, j: nat)
    requires Inv(s) && PublisherStep(s).Some? && j < |s.w| && !Distributes(s.p) && !s.p.Collecting?
    ensures var t := PublisherStep(s).value; t.w == s.w && ShareInv(t.p, t.published, t.res, j, t.w[j])
  {
    assert ShareInv(s.p, s.published, s.res, j, s.w[j]);
    if s.p == Checking { OwingNone(s.w); }
  }

  lemma CollectingKeepsShare(s: Sys, j: nat)
    requires Inv(s) && PublisherStep(s).Some? && j < |s.w| && s.p.Collecting?
    ensures var t := PublisherStep(s).value; |t.w| == |s.w| && ShareInv(t.p, t.published, t.res, j, t.w[j])
  {
    assert ShareInv(s.p, s.published, s.res, j, s.w[j]);
  }

  lemma PublisherKeepsShare(s: Sys, j: nat)
    requires Inv(s) && PublisherStep(s).Some? && j < |s.w|
    ensures var t := PublisherStep(s).value; |t.w| == |s.w| && ShareInv(t.p, t.published, t.res, j, t.w[j])
  {
    hide Inv, ShareInv, PublisherStep;
    if Distributes(s.p) {
      if j == s.p.i { ServingKeepsShare(s); } else { DistributingKeepsOther(s, j); }
    } else if s.p.Collecting? {
      CollectingKeepsShare(s, j);
    } else {
      BarrierKeepsShare(s, j);
    }
  }

  lemma PublisherKeepsItself(s: Sys)
    requires Inv(s) && PublisherStep(s).Some?
    ensures PublisherInv(PublisherStep(s).value)
  {
    hide ShareInv;
    var t := PublisherStep(s).value;
    if Distributes(s.p) || s.p.Collecting? { OwingUpdate(s.w, s.p.i, t.w[s.p.i]); }
  }

  lemma PublisherKeeps(s: Sys)
    requires Inv(s) && PublisherStep(s).Some?
    ensures Inv(PublisherStep(s).value)
  {
    hide ShareInv, PublisherInv, PublisherStep;
    var t := PublisherStep(s).value;
    PublisherKeepsItself(s);
    PublisherKeepsShare(s, 0);
    forall j | 0 <= j < |s.w| ensures ShareInv(t.p, t.published, t.res, j, t.w[j]) { PublisherKeepsShare(s, j); }
  }

  lemma PublishKeepsShare(s: Sys, j: nat)
    requires Inv(s) && Publish(s).Some? && j < |s.w|
    ensures var t := Publish(s).value; |t.w| == |s.w| && ShareInv(t.p, t.published, t.res, j, t.w[j])
  {
    assert ShareInv(s.p, s.published, s.res, j, s.w[j]);
  }

  lemma PublishKeeps(s: Sys)
    requires Inv(s) && Publish(s).Some?
    ensures Inv(Publish(s).value)
  {
    hide ShareInv;
    var t := Publish(s).value;
    OwingNone(t.w);
    forall j | 0 <= j < |t.w| ensures ShareInv(t.p, t.published, t.res, j, t.w[j]) { PublishKeepsShare(s, j); }
  }

  // ---------------------------------------------------------------- runs

  /** The state after a sequence of steps, or None if one of them was blocked. */
  function Run(s: Sys, acts: seq<Action>): Option<Sys>
    decreases acts
  {
    if acts == [] then Some(s)
    else match Next(s, acts[0])
      case None => None
      case Some(t) => Run(t, acts[1..])
  }

  lemma {:induction false} RunInv(s: Sys, acts: seq<Action>)
    requires Inv(s) && Run(s, acts).Some?
    ensures Inv(Run(s, acts).value)
    decreases acts
  {
    if acts != [] {
      match acts[0] {
        case Work(i) => WorkerKeeps(s, i);
        case Proceed => PublisherKeeps(s);
        case Start => PublishKeeps(s);
      }
      RunInv(Next(s, acts[0]).value, acts[1..]);
    }
  }

  /** The safety promised to the engine, of one state. */
  ghost predicate Safe(s: Sys) {
    // the memory of a worker is written, and the worker signalled, only while it waits
    && (s.p.Installing? || s.p.Signalling? ==> s.p.i < |s.w| && s.w[s.p.i].pc == Waiting)
    // whenever a working worker reads its memory, it finds the current event there
    && (forall j :: 0 <= j < |s.w| && s.w[j].pc == Working ==> s.w[j].slot == s.published - 1)
    // results are collected only when every worker has handled every event exactly once, in order
    && (s.p.Collecting? || s.p == Idle ==> forall j :: 0 <= j < |s.w| ==>
          (s.w[j].pc == Waiting || s.w[j].pc == Rewaiting) && s.w[j].seen == UpTo(s.published))
    // between publications every event has been collected exactly once from every worker
    && (s.p == Idle ==> forall j :: 0 <= j < |s.w| ==> s.w[j].collected == UpTo(s.published) && s.w[j].result == [])
  }

  /** Main result: under every interleaving the protocol is safe. */
  lemma ProtocolSafe(n: nat, acts: seq<Action>)
    requires n > 0 && Run(Init(n), acts).Some?
    ensures Safe(Run(Init(n), acts).value)
  {
    InitInv(n);
    RunInv(Init(n), acts);
    var s := Run(Init(n), acts).value;
    forall j | 0 <= j < |s.w|
      ensures s.w[j].pc == Working ==> s.w[j].slot == s.published - 1
      ensures Serves(s.p, j) && !s.p.Unlocking? ==> s.w[j].pc == Waiting
      ensures s.p.Collecting? || s.p == Idle ==> (s.w[j].pc == Waiting || s.w[j].pc == Rewaiting) && s.w[j].seen == UpTo(s.published)
      ensures s.p == Idle ==> s.w[j].collected == UpTo(s.published) && s.w[j].result == []
    {
      assert ShareInv(s.p, s.published, s.res, j, s.w[j]);
    }
  }

  predicate Enabled(s: Sys, a: Action) {
    Next(s, a).Some?
  }

  /** Main result: no deadlock and no lost wakeup. During a publication some step can be taken. */
  lemma NoDeadlock(n: nat, acts: seq<Action>) returns (a: Action)
    requires n > 0 && Run(Init(n), acts).Some? && Run(Init(n), acts).value.p != Idle
    ensures Enabled(Run(Init(n), acts).value, a) && a != Start
  {
    InitInv(n);
    RunInv(Init(n), acts);
    a := SomeStep(Run(Init(n), acts).value);
  }

  lemma HolderMoves(s: Sys)
    requires Inv(s) && s.res.Worker?
    ensures Enabled(s, Work(s.res.i))
  {
    assert ShareInv(s.p, s.published, s.res, s.res.i, s.w[s.res.i]);
  }

  /** While the publisher sleeps and nobody holds the result mutex, a worker that owes can move. */
  lemma OwingMoves(s: Sys) returns (j: nat)
    requires Inv(s) && s.p == Sleeping && !s.res.Worker?
    ensures Enabled(s, Work(j))
  {
    OwingNone(s.w);
    j :| 0 <= j < |s.w| && s.w[j].owes;
    assert ShareInv(s.p, s.published, s.res, j, s.w[j]);
  }

  lemma HolderOfMutexMoves(s: Sys)
    requires Inv(s) && s.p.Locking? && !s.res.Worker? && PublisherStep(s).None?
    ensures Enabled(s, Work(s.p.i))
  {
    assert ShareInv(s.p, s.published, s.res, s.p.i, s.w[s.p.i]);
  }

  lemma BlockedPublisher(s: Sys)
    requires Inv(s) && s.p != Idle && !s.res.Worker? && PublisherStep(s).None?
    ensures s.p.Locking? || s.p == Sleeping
  {
    hide ShareInv;
  }

  lemma SomeStep(s: Sys) returns (a: Action)
    requires Inv(s) && s.p != Idle
    ensures Enabled(s, a) && a != Start
  {
    hide Inv, WorkerStep, PublisherStep;
    if s.res.Worker? {
      HolderMoves(s);
      a := Work(s.res.i);
    } else if PublisherStep(s).Some? {
      a := Proceed;
    } else if s.p.Locking? {
      HolderOfMutexMoves(s);
      a := Work(s.p.i);
    } else {
      BlockedPublisher(s);
      var j := OwingMoves(s);
      a := Work(j);
    }
  }

  // ---------------------------------------------------------------- progress

  function WorkerRank(pc: WorkerPc): nat {
    match pc
    case Waiting => 0
    case Rewaiting => 1
    case Counted => 2
    case Testing => 3
    case Counting => 4
    case AtResult => 5
    case AtProcess => 6
    case Working => 7
    case Woken => 8
    case Notified => 9
  }

  function PublisherRank(p: PublisherPc, n: nat): int {
    match p
    case Locking(i) => 13 * (n - i) + n + 7
    case Installing(i) => 13 * (n - i) + n + 6
    case Signalling(i) => 13 * (n - i) + n + 5
    case Unlocking(i) => 13 * (n - i) + n - 5
    case AskResult => n + 6
    case Checking => n + 5
    case Sleeping => n + 4
    case Alerted => n + 3
    case Releasing => n + 2
    case Resetting => n + 1
    case Collecting(i) => n - i
    case Idle => 0
  }

  function WorkersRank(w: seq<Share>): nat {
    if w == [] then 0 else WorkerRank(w[0].pc) + WorkersRank(w[1..])
  }

  function Measure(s: Sys): int {
    PublisherRank(s.p, |s.w|) + WorkersRank(s.w)
  }

  lemma {:induction false} RankUpdate(w: seq<Share>, i: nat, x: Share)
    requires i < |w|
    ensures WorkersRank(w[i := x]) == WorkersRank(w) - WorkerRank(w[i].pc) + WorkerRank(x.pc)
  {
    if i == 0 {
      assert w[0 := x][1..] == w[1..];
    } else {
      RankUpdate(w[1..], i - 1, x);
      assert w[i := x][1..] == w[1..][i - 1 := x];
    }
  }

  lemma WorkerStepDecreases(s: Sys, i: nat)
    requires Inv(s) && i < |s.w| && WorkerStep(s, i).Some?
    ensures Measure(WorkerStep(s, i).value) < Measure(s)
  {
    hide Inv, PublisherRank, WorkersRank, WorkerRank, WorkerStep;
    var t := WorkerStep(s, i).value;
    WorkerRankFalls(s, i);
    RankUpdate(s.w, i, t.w[i]);
    AlertFalls(s.p, t.p, |s.w|);
  }

  lemma WorkerRankFalls(s: Sys, i: nat)
    requires i < |s.w| && WorkerStep(s, i).Some?
    ensures var t := WorkerStep(s, i).value;
            |t.w| == |s.w| && t.w == s.w[i := t.w[i]] && WorkerRank(t.w[i].pc) < WorkerRank(s.w[i].pc)
            && (t.p == s.p || (s.p == Sleeping && t.p == Alerted))
  {
  }

  lemma AlertFalls(p: PublisherPc, p': PublisherPc, n: nat)
    requires p' == p || (p == Sleeping && p' == Alerted)
    ensures PublisherRank(p', n) <= PublisherRank(p, n)
  {
  }

  lemma PublisherStepDecreases(s: Sys)
    requires Inv(s) && PublisherStep(s).Some?
    ensures Measure(PublisherStep(s).value) < Measure(s)
  {
    hide Inv, PublisherStep, PublisherRank, WorkerRank, WorkersRank;
    PublisherRankFalls(s);
    if Distributes(s.p) || s.p.Collecting? { RankUpdate(s.w, s.p.i, PublisherStep(s).value.w[s.p.i]); }
  }

  lemma PublisherRankFalls(s: Sys)
    requires PublisherStep(s).Some?
    ensures var t := PublisherStep(s).value; var n := |s.w|;
            |t.w| == n
            && if Distributes(s.p) || s.p.Collecting? then
                 s.p.i < n && t.w == s.w[s.p.i := t.w[s.p.i]]
                 && PublisherRank(t.p, n) + WorkerRank(t.w[s.p.i].pc) < PublisherRank(s.p, n) + WorkerRank(s.w[s.p.i].pc)
               else t.w == s.w && PublisherRank(t.p, n) < PublisherRank(s.p, n)
  {
  }

  lemma StepDecreases(s: Sys, a: Action)
    requires Inv(s) && a != Start && Enabled(s, a)
    ensures Inv(Next(s, a).value) && 0 <= Measure(Next(s, a).value) < Measure(s)
  {
    match a {
      case Work(i) =>
        WorkerKeeps(s, i);
        WorkerStepDecreases(s, i);
      case Proceed =>
        PublisherKeeps(s);
        PublisherStepDecreases(s);
    }
    MeasureNonNegative(Next(s, a).value);
  }

  /** Main result: the measure bounds how long a publication can go on, so that, since it can
      always move, it comes to its end with every worker done. */
  lemma {:induction false} RoundEnds(s: Sys, acts: seq<Action>)
    requires Inv(s) && Run(s, acts).Some? && forall k :: 0 <= k < |acts| ==> acts[k] != Start
    ensures |acts| + Measure(Run(s, acts).value) <= Measure(s) && Measure(Run(s, acts).value) >= 0
    decreases acts
  {
    if acts == [] {
      MeasureNonNegative(s);
    } else {
      StepDecreases(s, acts[0]);
      RoundEnds(Next(s, acts[0]).value, acts[1..]);
    }
  }

  lemma MeasureNonNegative(s: Sys)
    requires Inv(s)
    ensures Measure(s) >= 0
  {
  }

  /** Every publication can be driven to its end: some continuation without a new start leads
      back to the idle state. */
  lemma {:induction false} Completes(s: Sys) returns (acts: seq<Action>)
    requires Inv(s)
    ensures Run(s, acts).Some? && Run(s, acts).value.p == Idle && Inv(Run(s, acts).value)
    ensures forall k :: 0 <= k < |acts| ==> acts[k] != Start
    decreases Measure(s)
  {
    if s.p == Idle {
      acts := [];
    } else {
      var a := SomeStep(s);
      MeasureNonNegative(s);
      StepDecreases(s, a);
      var rest := Completes(Next(s, a).value);
      acts := [a] + rest;
      assert acts[1..] == rest;
    }
  }

  /** Main result: whenever the publisher is idle it can start on the next event. */
  lemma IdleStarts(n: nat, acts: seq<Action>)
    requires n > 0 && Run(Init(n), acts).Some? && Run(Init(n), acts).value.p == Idle
    ensures var s := Run(Init(n), acts).value;
            Enabled(s, Start) && Next(s, Start).value.published == s.published + 1 && Next(s, Start).value.p != Idle
  {
    InitInv(n);
    RunInv(Init(n), acts);
  }

  lemma {:induction false} RunAppend(s: Sys, a: seq<Action>, b: seq<Action>)
    requires Run(s, a).Some?
    ensures Run(s, a + b) == Run(Run(s, a).value, b)
    decreases a
  {
    hide Next;
    if a == [] {
      NoneBefore(b);
    } else {
      HeadOfSum(a, b);
      RunAppend(Next(s, a[0]).value, a[1..], b);
    }
  }

  lemma NoneBefore<T>(s: seq<T>)
    ensures [] + s == s
  {
  }

  lemma HeadOfSum<T>(a: seq<T>, b: seq<T>)
    requires a != []
    ensures a + b != [] && (a + b)[0] == a[0] && (a + b)[1..] == a[1..] + b
  {
  }

  /** Only a start publishes. */
  lemma {:induction false} RunPublishes(s: Sys, acts: seq<Action>)
    requires Run(s, acts).Some? && forall k :: 0 <= k < |acts| ==> acts[k] != Start
    ensures Run(s, acts).value.published == s.published
    decreases acts
  {
    if acts != [] { RunPublishes(Next(s, acts[0]).value, acts[1..]); }
  }

  lemma {:induction false} UpToAt(k: nat)
    ensures |UpTo(k)| == k && forall i :: 0 <= i < k ==> UpTo(k)[i] == i
  {
    if k > 0 { UpToAt(k - 1); }
  }

  /** The first k events, in order. */
  predicate First(s: seq<int>, k: nat) {
    |s| == k && forall i :: 0 <= i < k ==> s[i] == i
  }

  /** Main result: any number of events can be published one after the other, and then every
      worker has handled all of them in order, and all its results have been collected. */
  lemma {:induction false} EveryEvent(n: nat, k: nat) returns (acts: seq<Action>)
    requires n > 0
    ensures Run(Init(n), acts).Some?
    ensures var s := Run(Init(n), acts).value;
            s.p == Idle && s.published == k && |s.w| == n
            && forall j :: 0 <= j < n ==> First(s.w[j].seen, k) && First(s.w[j].collected, k)
  {
    hide First, Init;
    acts := PublishAll(n, k);
    ProtocolSafe(n, acts);
    WorkersKept(Init(n), acts);
    UpToAt(k);
    InitSize(n);
    var s := Run(Init(n), acts).value;
    forall j | 0 <= j < n ensures First(s.w[j].seen, k) && First(s.w[j].collected, k) { FirstUpTo(k); }
  }

  lemma FirstUpTo(k: nat)
    ensures First(UpTo(k), k)
  {
    UpToAt(k);
  }

  lemma InitSize(n: nat)
    ensures |Init(n).w| == n && Init(n).published == 0 && Init(n).p == Idle
  {
  }

  lemma {:induction false} PublishAll(n: nat, k: nat) returns (acts: seq<Action>)
    requires n > 0
    ensures Run(Init(n), acts).Some? && Run(Init(n), acts).value.p == Idle && Run(Init(n), acts).value.published == k
  {
    hide Next, Init, Inv;
    if k == 0 {
      InitSize(n);
      acts := [];
    } else {
      var before := PublishAll(n, k - 1);
      var s := Run(Init(n), before).value;
      IdleStarts(n, before);
      RunAppend(Init(n), before, [Start]);
      RunOne(s, Start);
      var t := Next(s, Start).value;
      InitInv(n);
      RunInv(Init(n), before + [Start]);
      var rest := Completes(t);
      RunPublishes(t, rest);
      acts := before + [Start] + rest;
      RunAppend(Init(n), before + [Start], rest);
    }
  }

  lemma RunOne(s: Sys, a: Action)
    requires Next(s, a).Some?
    ensures Run(s, [a]) == Next(s, a)
  {
    hide Next;
    assert [a][1..] == [];
  }

  // ---------------------------------------------------------------- rule partition

  /** Worker j serves the rules from `size * j` up to `size * (j + 1)`. */
  predicate Serving(n: nat, numProc: nat, j: int, rule: int)
    requires numProc > 0
  {
    var size := n / numProc + 1;
    size * j <= rule < size * (j + 1)
  }

  lemma OneInterval(size: nat, j: int, k: int, rule: int)
    requires size * j <= rule < size * (j + 1)
    ensures size * k <= rule < size * (k + 1) <==> k == j
  {
    if k < j { MulMono(size, k + 1, j); }
    if k > j { MulMono(size, j + 1, k); }
  }

  lemma LowWorker(size: nat, numProc: int, j: int, n: int, rule: int)
    requires size * j <= rule < n < size * numProc
    ensures j < numProc
  {
    if j >= numProc { MulMono(size, numProc, j); }
  }

  /** Every rule is served by exactly one worker, whatever the number of rules and workers. */
  lemma PartitionExact(n: nat, numProc: nat, rule: nat) returns (j: nat)
    requires numProc > 0 && rule < n
    ensures j < numProc && forall k :: 0 <= k < numProc ==> (Serving(n, numProc, k, rule) <==> k == j)
  {
    var size := n / numProc + 1;
    j := rule / size;
    Division(rule, size);
    EnoughWorkers(n, numProc);
    LowWorker(size, numProc, j, n, rule);
    forall k | 0 <= k < numProc ensures Serving(n, numProc, k, rule) <==> k == j {
      OneInterval(size, j, k, rule);
    }
  }

  lemma Division(a: nat, d: nat)
    requires d > 0
    ensures d * (a / d) <= a < d * (a / d + 1)
  {
    assert a == d * (a / d) + a % d;
  }

  lemma EnoughWorkers(n: nat, numProc: nat)
    requires numProc > 0
    ensures (n / numProc + 1) * numProc > n
  {
    Division(n, numProc);
  }

  lemma MulMono(size: nat, a: int, b: int)
    requires a <= b
    ensures size * a <= size * b
  {
  }

  /** Main result: between publications, each rule has been given each event exactly once, in
      order: by the one worker that serves it, which has handled them all. */
  lemma EachRuleOnce(n: nat, acts: seq<Action>, rules: nat, rule: nat) returns (j: nat)
    requires n > 0 && Run(Init(n), acts).Some? && Run(Init(n), acts).value.p == Idle && rule < rules
    ensures var s := Run(Init(n), acts).value;
            |s.w| == n && j < n && s.w[j].seen == UpTo(s.published)
            && forall k :: 0 <= k < n ==> (Serving(rules, n, k, rule) <==> k == j)
  {
    ProtocolSafe(n, acts);
    WorkersKept(Init(n), acts);
    j := PartitionExact(rules, n, rule);
  }

  lemma {:induction false} WorkersKept(s: Sys, acts: seq<Action>)
    requires Run(s, acts).Some?
    ensures |Run(s, acts).value.w| == |s.w|
    decreases acts
  {
    if acts != [] { WorkersKept(Next(s, acts[0]).value, acts[1..]); }
  }
}
