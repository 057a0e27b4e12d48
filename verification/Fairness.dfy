/** Progress over ordered links that cannot be withheld: in every infinite run that is fair,
    everything is delivered everywhere after finitely many steps.

    The threads of a process share one client for each destination and hold its lock
    while they wait for an answer. So of the threads that want to send on a link only
    one may be able to, and fairness asks no more than that one of them keeps sending. */
module Fairness {
  import opened Wire
  import opened TotalOrder
  import opened Safety
  import opened FifoNetwork
  import opened FifoTheorems
  import opened Completion

  // ----- infinite runs

  predicate IsLaunch(step: FStep) {
    step.Local? && step.step.Launch?
  }

  /** A move leads from f to g; None is a moment at which nothing happens. */
  ghost predicate MovesTo(f: Fifo, move: Option<FStep>, g: Fifo) {
    && Sized(f.sys)
    && match move
       case None => g == f
       case Some(step) => !IsLaunch(step) && FEnabled(f, step) && g == FApply(f, step)
  }

  ghost predicate MoveAt(r: nat -> Fifo, moves: nat -> Option<FStep>, i: nat) {
    MovesTo(r(i), moves(i), r(i + 1))
  }

  /** An infinite run in which no more messages are launched. */
  ghost predicate IsRun(r: nat -> Fifo, moves: nat -> Option<FStep>) {
    forall i: nat :: MoveAt(r, moves, i)
  }

  /** No move wraps a counter. */
  ghost predicate NeverWraps(r: nat -> Fifo, moves: nat -> Option<FStep>) {
    forall i: nat :: !WrapsAt(r, moves, i)
  }

  predicate WrapsAt(r: nat -> Fifo, moves: nat -> Option<FStep>, i: nat) {
    Sized(r(i).sys) && moves(i).Some? && FWraps(r(i), moves(i).value)
  }

  /** No sender gets an answer any more. */
  ghost predicate Settled(r: nat -> Fifo, i: nat) {
    forall j: nat :: j >= i ==> r(j).sys.senders == r(i).sys.senders
  }

  // ----- what happens again and again

  predicate TransmitsAt(moves: nat -> Option<FStep>, i: nat, k: Key) {
    moves(i) == Some(Transmit(k))
  }

  ghost predicate TransmitsAfter(moves: nat -> Option<FStep>, i: nat, k: Key) {
    exists j: nat :: j >= i && TransmitsAt(moves, j, k)
  }

  ghost predicate TransmitsForever(moves: nat -> Option<FStep>, k: Key) {
    forall i: nat :: TransmitsAfter(moves, i, k)
  }

  /** Move i puts p on link l. */
  ghost predicate PutsAt(r: nat -> Fifo, moves: nat -> Option<FStep>, i: nat, l: Link, p: Packet) {
    exists k :: TransmitsAt(moves, i, k) && SendsOn(r(i).sys, k, l, p)
  }

  ghost predicate PutsAfter(r: nat -> Fifo, moves: nat -> Option<FStep>, i: nat, l: Link, p: Packet) {
    exists j: nat :: j >= i && PutsAt(r, moves, j, l, p)
  }

  ghost predicate PutsForever(r: nat -> Fifo, moves: nat -> Option<FStep>, l: Link, p: Packet) {
    forall i: nat :: PutsAfter(r, moves, i, l, p)
  }

  /** Move i receives p from link l. */
  predicate TakesAt(r: nat -> Fifo, moves: nat -> Option<FStep>, i: nat, l: Link, p: Packet) {
    && moves(i).Some? && moves(i).value.Take? && moves(i).value.l == l
    && r(i).On(l) != [] && r(i).On(l)[0] == p
  }

  ghost predicate TakesAfter(r: nat -> Fifo, moves: nat -> Option<FStep>, i: nat, l: Link, p: Packet) {
    exists j: nat :: j >= i && TakesAt(r, moves, j, l, p)
  }

  ghost predicate TakesForever(r: nat -> Fifo, moves: nat -> Option<FStep>, l: Link, p: Packet) {
    forall i: nat :: TakesAfter(r, moves, i, l, p)
  }

  /** Move i hands the sender of p the answer from the far end of link l. */
  predicate AnswersAt(moves: nat -> Option<FStep>, i: nat, l: Link, p: Packet) {
    && moves(i).Some? && moves(i).value.Local?
    && match p
       case DataPacket(k) =>
         moves(i).value.step.ReceiveAck? && moves(i).value.step.a.key == k && moves(i).value.step.a.proposer == l.1
       case SeqPacket(m) => moves(i).value.step == ReceiveSeqAck(l.1, m.key)
  }

  // ----- fairness

  /** On a link that someone wants to send on, someone keeps sending: the holder of the
      client's lock retransmits for as long as it has no answer. */
  ghost predicate FairSenders(r: nat -> Fifo, moves: nat -> Option<FStep>) {
    forall i: nat, k, l, p :: Settled(r, i) && SendsOn(r(i).sys, k, l, p) ==>
      exists j, p' :: SendsOn(r(i).sys, j, l, p') && TransmitsForever(moves, j)
  }

  /** A copy sent again and again is received again and again. */
  ghost predicate FairLinks(r: nat -> Fifo, moves: nat -> Option<FStep>) {
    forall l, p :: PutsForever(r, moves, l, p) ==> TakesForever(r, moves, l, p)
  }

  /** A copy received, and so answered, again and again has its answer read by a sender
      that keeps waiting for it. */
  ghost predicate FairAnswers(r: nat -> Fifo, moves: nat -> Option<FStep>) {
    forall i: nat, k, l, p ::
      Settled(r, i) && SendsOn(r(i).sys, k, l, p) && TakesForever(r, moves, l, p) ==>
        exists j: nat :: j >= i && AnswersAt(moves, j, l, p)
  }

  ghost predicate Fair(r: nat -> Fifo, moves: nat -> Option<FStep>) {
    FairSenders(r, moves) && FairLinks(r, moves) && FairAnswers(r, moves)
  }

  // ----- every fair run settles, and only once everything is done

  /** A step either leaves all senders where they are or brings one an answer that was
      missing. */
  lemma StepMoves(f: Fifo, step: FStep)
    requires FSafe(f) && FEnabled(f, step) && !IsLaunch(step)
    ensures var g := FApply(f, step);
            && FSafe(g) && g.sys.senders.Keys == f.sys.senders.Keys
            && (g.sys.senders == f.sys.senders || Missing(g.sys) < Missing(f.sys))
  {
    FStepSafe(f, step);
    if step.Local? {
      AnswerLowers(f, step.step);
    }
  }

  lemma AnswerLowers(f: Fifo, step: Step)
    requires FSafe(f) && FEnabled(f, Local(step)) && !step.Launch?
    ensures Missing(FApply(f, Local(step)).sys) < Missing(f.sys)
  {
    match step
    case ReceiveAck(a) => AckLowersMissing(f, a.key, step);
    case ReceiveSeqAck(_, k) => AckLowersMissing(f, k, step);
  }

  lemma MoveSafe(f: Fifo, move: Option<FStep>, g: Fifo)
    requires MovesTo(f, move, g) && FSafe(f)
    ensures FSafe(g) && g.sys.senders.Keys == f.sys.senders.Keys && Descends(f.sys, g.sys)
  {
    if move.Some? {
      StepMoves(f, move.value);
    }
  }

  /** A run that starts in a safe state. */
  ghost predicate Sound(r: nat -> Fifo, moves: nat -> Option<FStep>) {
    IsRun(r, moves) && FSafe(r(0))
  }

  lemma MoveSafeAt(r: nat -> Fifo, moves: nat -> Option<FStep>, i: nat)
    requires i > 0 && Sound(r, moves) && FSafe(r(i - 1))
    ensures FSafe(r(i)) && r(i).sys.senders.Keys == r(i - 1).sys.senders.Keys && Descends(r(i - 1).sys, r(i).sys)
  {
    assert MoveAt(r, moves, i - 1);
    MoveSafe(r(i - 1), moves(i - 1), r(i));
  }

  lemma {:induction false} AllSafe(r: nat -> Fifo, moves: nat -> Option<FStep>, i: nat)
    requires Sound(r, moves)
    ensures FSafe(r(i)) && r(i).sys.senders.Keys == r(0).sys.senders.Keys
    ensures |r(i).sys.nodes| == |r(0).sys.nodes|
  {
    if i > 0 {
      AllSafe(r, moves, i - 1);
      MoveSafeAt(r, moves, i);
    }
  }

  /** At every moment the senders stay where they are or an answer arrives. */
  ghost predicate Descends(s: System, t: System) {
    |t.nodes| == |s.nodes| && (t.senders == s.senders || Missing(t) < Missing(s))
  }

  ghost predicate Descending(r: nat -> Fifo) {
    forall i: nat :: DescendsAt(r, i)
  }

  ghost predicate DescendsAt(r: nat -> Fifo, i: nat) {
    Descends(r(i).sys, r(i + 1).sys)
  }

  lemma RunDescends(r: nat -> Fifo, moves: nat -> Option<FStep>)
    requires Sound(r, moves)
    ensures Descending(r)
  {
    forall i: nat ensures DescendsAt(r, i) {
      AllSafe(r, moves, i);
      MoveSafeAt(r, moves, i + 1);
    }
  }

  lemma DescentCounts(s: System, t: System)
    requires Descends(s, t)
    ensures |Missing(t)| <= |Missing(s)|
    ensures t.senders == s.senders || |Missing(t)| < |Missing(s)|
  {
    if t.senders == s.senders {
      assert Missing(t) == Missing(s);
    } else {
      SmallerSet(Missing(t), Missing(s));
    }
  }

  lemma {:induction false} MissingFalls(r: nat -> Fifo, i: nat, j: nat)
    requires Descending(r) && i <= j
    ensures |r(j).sys.nodes| == |r(i).sys.nodes|
    ensures |Missing(r(j).sys)| <= |Missing(r(i).sys)|
    ensures r(j).sys.senders == r(i).sys.senders || |Missing(r(j).sys)| < |Missing(r(i).sys)|
    decreases j
  {
    if i < j {
      MissingFalls(r, i, j - 1);
      assert DescendsAt(r, j - 1);
      DescentCounts(r(j - 1).sys, r(j).sys);
    }
  }

  lemma {:induction false} Settles(r: nat -> Fifo, i: nat) returns (n: nat)
    requires Descending(r)
    ensures Settled(r, n)
    decreases |Missing(r(i).sys)|
  {
    if j: nat :| j >= i && |Missing(r(j).sys)| < |Missing(r(i).sys)| {
      n := Settles(r, j);
    } else {
      n := i;
      forall j: nat | j >= i ensures r(j).sys.senders == r(i).sys.senders {
        MissingFalls(r, i, j);
      }
    }
  }

  lemma SameOutgoing(s: System, t: System, k: Key, l: Link, p: Packet)
    requires t.senders == s.senders && |t.nodes| == |s.nodes|
    ensures SendsOn(t, k, l, p) <==> SendsOn(s, k, l, p)
  {
  }

  /** What is transmitted for ever by a settled sender is one and the same copy. */
  lemma SameCopyForever(r: nat -> Fifo, moves: nat -> Option<FStep>, i: nat, k: Key, l: Link, p: Packet)
    requires Descending(r) && Settled(r, i) && SendsOn(r(i).sys, k, l, p) && TransmitsForever(moves, k)
    ensures PutsForever(r, moves, l, p)
  {
    forall b: nat ensures PutsAfter(r, moves, b, l, p) {
      var c := if b > i then b else i;
      assert TransmitsAfter(moves, c, k);
      var j: nat :| j >= c && TransmitsAt(moves, j, k);
      MissingFalls(r, i, j);
      SameOutgoing(r(i).sys, r(j).sys, k, l, p);
      assert PutsAt(r, moves, j, l, p);
    }
  }

  /** A sender that is answered moves on. */
  lemma AnswerMoves(r: nat -> Fifo, moves: nat -> Option<FStep>, j: nat, l: Link, p: Packet)
    requires Sound(r, moves) && AnswersAt(moves, j, l, p)
    ensures r(j + 1).sys.senders != r(j).sys.senders
  {
    AllSafe(r, moves, j);
    assert MoveAt(r, moves, j);
    AnswerLowers(r(j), moves(j).value.step);
    assert Missing(r(j + 1).sys) != Missing(r(j).sys);
  }

  lemma SettledNoneSending(r: nat -> Fifo, moves: nat -> Option<FStep>, i: nat, k: Key)
    requires Sound(r, moves) && Fair(r, moves) && Settled(r, i)
    ensures !Sending(r(i).sys, k)
  {
    if Sending(r(i).sys, k) {
      var l := Outgoing(r(i).sys, k).0;
      assert SendsOn(r(i).sys, k, l, Outgoing(r(i).sys, k).1);
      var h, p :| SendsOn(r(i).sys, h, l, p) && TransmitsForever(moves, h);
      RunDescends(r, moves);
      SameCopyForever(r, moves, i, h, l, p);
      assert TakesForever(r, moves, l, p);
      var j: nat :| j >= i && AnswersAt(moves, j, l, p);
      AnswerMoves(r, moves, j, l, p);
      assert false;
    }
  }

  lemma SettledIsDone(r: nat -> Fifo, moves: nat -> Option<FStep>, i: nat)
    requires Sound(r, moves) && Fair(r, moves) && Settled(r, i)
    ensures AllDone(r(i).sys)
  {
    AllSafe(r, moves, i);
    var s := r(i).sys;
    forall k | k in s.senders ensures s.Final(k) && s.senders[k].next == |s.nodes| {
      assert SenderOk(s, k);
      SettledNoneSending(r, moves, i, k);
    }
  }

  // ----- agreement, where no counter wraps

  lemma GoodMoveAt(r: nat -> Fifo, moves: nat -> Option<FStep>, i: nat)
    requires i > 0 && IsRun(r, moves) && FGood(r(i - 1))
    ensures FGood(r(i)) <==> !WrapsAt(r, moves, i - 1)
  {
    assert MoveAt(r, moves, i - 1);
    if moves(i - 1).Some? {
      FStepKeeps(r(i - 1), moves(i - 1).value);
    }
  }

  lemma {:induction false} AllGood(r: nat -> Fifo, moves: nat -> Option<FStep>, i: nat)
    requires IsRun(r, moves) && NeverWraps(r, moves) && FGood(r(0))
    ensures FGood(r(i))
  {
    if i > 0 {
      AllGood(r, moves, i - 1);
      assert !WrapsAt(r, moves, i - 1);
      GoodMoveAt(r, moves, i);
    }
  }

  /** In every fair run from a reachable state, wrapped or not, from some moment on for
      ever, every launched message has been delivered exactly once at every process and
      all queues are empty; and all logs are equal, if no counter ever wraps. */
  lemma FairCompleteness(n: nat, before: seq<FStep>, r: nat -> Fifo, moves: nat -> Option<FStep>) returns (i: nat)
    requires 0 < n < 0x1_0000_0000 && FExecutes(FInit(n), before, r(0)) && IsRun(r, moves) && Fair(r, moves)
    ensures forall j: nat :: j >= i ==> Complete(r(j).sys) && r(j).sys.senders.Keys == r(0).sys.senders.Keys
    ensures forall k :: k in r(0).sys.senders <==> Local(Launch(k)) in before
    ensures FReaches(n, before, r(0)) && NeverWraps(r, moves) ==> forall j: nat :: j >= i ==> Agreed(r(j).sys)
  {
    FReachableSafe(n, before, r(0));
    forall k ensures k in r(0).sys.senders <==> Local(Launch(k)) in before {
      FLaunchedExactly(n, before, r(0), k);
    }
    RunDescends(r, moves);
    i := Settles(r, 0);
    SettledIsDone(r, moves, i);
    forall j: nat | j >= i
      ensures AllDone(r(j).sys) && Complete(r(j).sys) && r(j).sys.senders.Keys == r(0).sys.senders.Keys
    {
      AllSafe(r, moves, i);
      AllSafe(r, moves, j);
      DoneIsComplete(r(j));
    }
    if FReaches(n, before, r(0)) && NeverWraps(r, moves) {
      FReachableGood(n, before, r(0));
      forall j: nat | j >= i ensures Agreed(r(j).sys) {
        AllGood(r, moves, j);
        DoneIsAgreed(r(j));
      }
    }
  }

  // ----- few messages cannot wrap a counter

  lemma BoundedMoveAt(r: nat -> Fifo, moves: nat -> Option<FStep>, i: nat)
    requires i > 0 && IsRun(r, moves) && FGood(r(i - 1)) && Bounded(r(i))
    ensures FGood(r(i)) && !WrapsAt(r, moves, i - 1)
  {
    assert MoveAt(r, moves, i - 1);
    if moves(i - 1).Some? {
      BoundedStepNeverWraps(r(i - 1), moves(i - 1).value);
    }
    GoodMoveAt(r, moves, i);
  }

  lemma StaysBounded(r: nat -> Fifo, moves: nat -> Option<FStep>, i: nat)
    requires IsRun(r, moves) && FSafe(r(0)) && Bounded(r(0))
    ensures Bounded(r(i))
  {
    AllSafe(r, moves, i);
    MoreSendersBounded(r(i), r(0));
  }

  lemma {:induction false} BoundedAllGood(r: nat -> Fifo, moves: nat -> Option<FStep>, i: nat)
    requires IsRun(r, moves) && FGood(r(0)) && Bounded(r(0))
    ensures FGood(r(i))
  {
    if i > 0 {
      BoundedAllGood(r, moves, i - 1);
      StaysBounded(r, moves, i);
      BoundedMoveAt(r, moves, i);
    }
  }

  /** With fewer than 2^32 pairs of a process and a launched message no run wraps a
      counter. */
  lemma BoundedNeverWraps(n: nat, before: seq<FStep>, r: nat -> Fifo, moves: nat -> Option<FStep>)
    requires 0 < n < 0x1_0000_0000 && FExecutes(FInit(n), before, r(0)) && Bounded(r(0)) && IsRun(r, moves)
    ensures FReaches(n, before, r(0)) && NeverWraps(r, moves)
  {
    FReachableGood(n, before, r(0));
    forall i: nat ensures !WrapsAt(r, moves, i) {
      BoundedAllGood(r, moves, i);
      StaysBounded(r, moves, i + 1);
      BoundedMoveAt(r, moves, i + 1);
    }
  }

  // ----- fair runs exist

  /** The state after the first i steps. */
  function StateAt(f: Fifo, steps: seq<FStep>, i: nat): Fifo
    decreases i
  {
    if i == 0 || steps == [] || !Sized(f.sys) || !FEnabled(f, steps[0]) then f
    else StateAt(FApply(f, steps[0]), steps[1..], i - 1)
  }

  function NthMove(steps: seq<FStep>, i: nat): Option<FStep> {
    if i < |steps| then Some(steps[i]) else None
  }

  lemma {:induction false} StatesFollow(f: Fifo, steps: seq<FStep>, g: Fifo, i: nat)
    requires Sized(f.sys) && FExecutes(f, steps, g)
    ensures |StateAt(f, steps, i).sys.nodes| == |f.sys.nodes|
    ensures i >= |steps| ==> StateAt(f, steps, i) == g == StateAt(f, steps, i + 1)
    ensures i < |steps| ==>
              FEnabled(StateAt(f, steps, i), steps[i]) &&
              StateAt(f, steps, i + 1) == FApply(StateAt(f, steps, i), steps[i])
    decreases i
  {
    if steps != [] {
      var mid := FApply(f, steps[0]);
      if i == 0 {
        assert StateAt(f, steps, 1) == StateAt(mid, steps[1..], 0);
      } else {
        StatesFollow(mid, steps[1..], g, i - 1);
      }
    }
  }

  /** A run that comes to rest where everything is done is fair. */
  lemma RestIsFair(r: nat -> Fifo, moves: nat -> Option<FStep>, n: nat)
    requires forall i: nat :: i >= n ==> moves(i) == None && AllDone(r(i).sys)
    requires forall i: nat :: |r(i).sys.nodes| == |r(0).sys.nodes|
    ensures Fair(r, moves)
  {
    forall l, p ensures !PutsForever(r, moves, l, p) && !TakesForever(r, moves, l, p) {
      assert !PutsAfter(r, moves, n, l, p) && !TakesAfter(r, moves, n, l, p);
    }
    forall i: nat, k | Settled(r, i) ensures !Sending(r(i).sys, k) {
      var j := if i > n then i else n;
      assert r(j).sys.senders == r(i).sys.senders && AllDone(r(j).sys);
    }
  }

  /** A finite run followed by rest is an infinite run. */
  lemma FiniteRun(f: Fifo, steps: seq<FStep>, g: Fifo, r: nat -> Fifo, moves: nat -> Option<FStep>)
    requires Sized(f.sys) && FExecutes(f, steps, g) && Clean(steps)
    requires forall i: nat :: r(i) == StateAt(f, steps, i) && moves(i) == NthMove(steps, i)
    ensures IsRun(r, moves)
    ensures forall i: nat :: |r(i).sys.nodes| == |f.sys.nodes|
    ensures forall i: nat :: i >= |steps| ==> moves(i) == None && r(i) == g
  {
    forall i: nat
      ensures MoveAt(r, moves, i) && |r(i).sys.nodes| == |f.sys.nodes|
      ensures i >= |steps| ==> moves(i) == None && r(i) == g
    {
      StatesFollow(f, steps, g, i);
      assert i < |steps| ==> steps[i] in steps;
    }
  }

  lemma RestingRun(f: Fifo, steps: seq<FStep>, g: Fifo) returns (r: nat -> Fifo, moves: nat -> Option<FStep>)
    requires Sized(f.sys) && FExecutes(f, steps, g) && Clean(steps) && AllDone(g.sys)
    ensures r(0) == f && IsRun(r, moves) && Fair(r, moves)
  {
    r, moves := (i: nat) => StateAt(f, steps, i), (i: nat) => NthMove(steps, i);
    FiniteRun(f, steps, g, r, moves);
    RestIsFair(r, moves, |steps|);
  }

  /** From every reachable state, wrapped or not, some fair run goes on. */
  lemma FairRunExists(n: nat, before: seq<FStep>, f: Fifo) returns (r: nat -> Fifo, moves: nat -> Option<FStep>)
    requires 0 < n < 0x1_0000_0000 && FExecutes(FInit(n), before, f)
    ensures r(0) == f && IsRun(r, moves) && Fair(r, moves)
    ensures Bounded(f) ==> NeverWraps(r, moves)
  {
    FReachableSafe(n, before, f);
    var steps, g := RunToEnd(f);
    r, moves := RestingRun(f, steps, g);
    if Bounded(f) {
      BoundedNeverWraps(n, before, r, moves);
    }
  }
}
