/** Progress over ordered links: from wherever the system has got to, there is a run that
    loses nothing, launches nothing, and ends with everything delivered everywhere. */
module Completion {
  import opened Wire
  import opened HoldBack
  import opened Processes
  import opened TotalOrder
  import opened Safety
  import opened Invariant
  import opened Theorems
  import opened FifoNetwork
  import opened FifoTheorems

  /** The acknowledgements still missing: one of each kind for every launched message and
      process. */
  function Missing(s: System): set<(Key, int)> {
    set k, i | k in s.senders && Progress(|s.nodes|, s.senders[k]) <= i < 2 * |s.nodes| :: (k, i)
  }

  lemma MissingNeverGrows(f: Fifo, step: FStep)
    requires Sized(f.sys) && FEnabled(f, step) && (step.Local? ==> !step.step.Launch?)
    ensures Missing(FApply(f, step).sys) <= Missing(f.sys)
  {
  }

  /** The number of missing acknowledgements never rises, except by launching. */
  lemma MeasureNeverRises(f: Fifo, step: FStep)
    requires Sized(f.sys) && FEnabled(f, step) && (step.Local? ==> !step.step.Launch?)
    ensures |Missing(FApply(f, step).sys)| <= |Missing(f.sys)|
  {
    MissingNeverGrows(f, step);
    SubsetSize(Missing(FApply(f, step).sys), Missing(f.sys));
  }

  /** Nothing lost, nothing launched. */
  predicate Clean(steps: seq<FStep>) {
    forall st | st in steps :: !st.Lose? && (st.Local? ==> !st.step.Launch?)
  }

  /** A clean run from f to g. */
  ghost predicate Continues(f: Fifo, steps: seq<FStep>, g: Fifo)
    requires Sized(f.sys)
  {
    FExecutes(f, steps, g) && Clean(steps) && g.sys.senders.Keys == f.sys.senders.Keys
  }

  lemma {:induction false} Concat(f: Fifo, a: seq<FStep>, g: Fifo, b: seq<FStep>, h: Fifo)
    requires Sized(f.sys) && FExecutes(f, a, g) && FExecutes(g, b, h)
    ensures FExecutes(f, a + b, h)
    decreases |a|
  {
    if a == [] {
      assert a + b == b;
    } else {
      var mid := FApply(f, a[0]);
      Concat(mid, a[1..], g, b, h);
      assert (a + b)[0] == a[0] && (a + b)[1..] == a[1..] + b;
    }
  }

  lemma Chain(f: Fifo, a: seq<FStep>, g: Fifo, b: seq<FStep>, h: Fifo)
    requires Sized(f.sys) && Sized(g.sys) && Continues(f, a, g) && Continues(g, b, h)
    ensures Continues(f, a + b, h)
  {
    Concat(f, a, g, b, h);
  }

  lemma OneStep(f: Fifo, step: FStep)
    requires FSafe(f) && FEnabled(f, step) && Clean([step])
    ensures Continues(f, [step], FApply(f, step)) && FSafe(FApply(f, step))
  {
    var g := FApply(f, step);
    assert step in [step];
    assert g.sys.senders.Keys == f.sys.senders.Keys;
    FStepSafe(f, step);
    assert FExecutes(g, [], g);
    assert [step][1..] == [];
  }

  lemma TakeHead(f: Fifo, l: Link) returns (g: Fifo)
    requires FSafe(f) && f.On(l) != []
    ensures FEnabled(f, Take(l, false)) && g == FApply(f, Take(l, false))
    ensures Continues(f, [Take(l, false)], g) && FSafe(g)
    ensures g.sys.senders == f.sys.senders && g.On(l) == f.On(l)[1..]
  {
    HeadEnabled(f, l, false);
    OneStep(f, Take(l, false));
    g := FApply(f, Take(l, false));
  }

  /** A link can be emptied by receiving what is on it. */
  lemma {:induction false} Drain(f: Fifo, l: Link) returns (steps: seq<FStep>, g: Fifo)
    requires FSafe(f)
    ensures Continues(f, steps, g) && FSafe(g)
    ensures g.On(l) == [] && g.sys.senders == f.sys.senders
    decreases |f.On(l)|
  {
    if f.On(l) == [] {
      steps, g := [], f;
    } else {
      var mid := TakeHead(f, l);
      var rest;
      rest, g := Drain(mid, l);
      Chain(f, [Take(l, false)], mid, rest, g);
      steps := [Take(l, false)] + rest;
    }
  }

  /** A fresh copy can be had alone on its link. */
  lemma FreshCopy(f: Fifo, k: Key) returns (steps: seq<FStep>, g: Fifo)
    requires FSafe(f) && Sending(f.sys, k)
    ensures Continues(f, steps, g) && FSafe(g) && g.sys.senders == f.sys.senders
    ensures g.On(Outgoing(f.sys, k).0) == [Outgoing(f.sys, k).1]
  {
    var b, mid := Drain(f, Outgoing(f.sys, k).0);
    assert Outgoing(mid.sys, k) == Outgoing(f.sys, k);
    OneStep(mid, Transmit(k));
    g := FApply(mid, Transmit(k));
    Chain(f, b, mid, [Transmit(k)], g);
    steps := b + [Transmit(k)];
  }

  lemma DataIsAcked(s: System, q: nat, k: Key) returns (a: AckMessage)
    requires Safe(s) && Enabled(s, ReceiveData(q, k))
    ensures a.key == k && a.proposer == q && a in Apply(s, ReceiveData(q, k)).acks
  {
    a := HandleData(s.nodes[q].proc, q, k).1;
    assert NodeOk(s, q);
    assert k in s.Pending(q) ==> s.Pending(q)[k].proposer == q;
  }

  lemma AckLowersMissing(f: Fifo, k: Key, step: Step)
    requires Sized(f.sys) && FEnabled(f, Local(step)) && k in f.sys.senders
    requires IsAnswer(step, k)
    ensures Missing(FApply(f, Local(step)).sys) < Missing(f.sys)
  {
    var i := Progress(|f.sys.nodes|, f.sys.senders[k]);
    MissingNeverGrows(f, Local(step));
    assert (k, i) in Missing(f.sys) && (k, i) !in Missing(FApply(f, Local(step)).sys);
  }

  /** A fresh copy from k's sender to its current process q gets there. */
  lemma DeliverData(f: Fifo, k: Key) returns (steps: seq<FStep>, g: Fifo, a: AckMessage)
    requires FSafe(f) && Asking(f.sys, k)
    ensures Continues(f, steps, g) && FSafe(g) && g.sys.senders == f.sys.senders
    ensures a in g.sys.acks && a.key == k && a.proposer == |f.sys.senders[k].acks|
  {
    var l := Outgoing(f.sys, k).0;
    var b, mid := FreshCopy(f, k);
    g := TakeHead(mid, l);
    a := DataIsAcked(mid.sys, l.1, k);
    Chain(f, b, mid, [Take(l, false)], g);
    steps := b + [Take(l, false)];
  }

  lemma DeliverSeq(f: Fifo, k: Key) returns (steps: seq<FStep>, g: Fifo)
    requires FSafe(f) && f.sys.Final(k) && f.sys.senders[k].next < |f.sys.nodes|
    ensures Continues(f, steps, g) && FSafe(g) && g.sys.senders == f.sys.senders
    ensures (f.sys.senders[k].next, k) in g.sys.seqAcks
  {
    var l := Outgoing(f.sys, k).0;
    assert SenderOk(f.sys, k);
    var b, mid := FreshCopy(f, k);
    g := TakeHead(mid, l);
    TakenIsTold(mid, l);
    Chain(f, b, mid, [Take(l, false)], g);
    steps := b + [Take(l, false)];
  }

  lemma TakenIsTold(f: Fifo, l: Link)
    requires Sized(f.sys) && FEnabled(f, Take(l, false)) && f.On(l)[0].SeqPacket?
    ensures (l.1, f.On(l)[0].msg.key) in FApply(f, Take(l, false)).sys.seqAcks
  {
  }

  /** Only the sender of k moves, by one acknowledgement. */
  ghost predicate Advances(s: System, t: System, k: Key) {
    && k in s.senders && t.senders.Keys == s.senders.Keys && |t.nodes| == |s.nodes|
    && Progress(|t.nodes|, t.senders[k]) == Progress(|s.nodes|, s.senders[k]) + 1
    && forall j :: j in s.senders && j != k ==> t.senders[j] == s.senders[j]
  }

  lemma AnswerAdvances(s: System, k: Key, step: Step)
    requires Sized(s) && Enabled(s, step) && k in s.senders && IsAnswer(step, k)
    ensures Advances(s, Apply(s, step), k)
  {
  }

  /** A run that leaves the senders alone and then brings k an answer. */
  lemma ThenAnswered(f: Fifo, b: seq<FStep>, mid: Fifo, k: Key, step: Step) returns (steps: seq<FStep>, g: Fifo)
    requires Sized(f.sys) && Continues(f, b, mid) && FSafe(mid) && mid.sys.senders == f.sys.senders
    requires k in f.sys.senders && FEnabled(mid, Local(step)) && IsAnswer(step, k)
    ensures Continues(f, steps, g) && FSafe(g) && Missing(g.sys) < Missing(f.sys)
    ensures Advances(f.sys, g.sys, k)
  {
    OneStep(mid, Local(step));
    g := FApply(mid, Local(step));
    Chain(f, b, mid, [Local(step)], g);
    steps := b + [Local(step)];
    AnswerAdvances(mid.sys, k, step);
    AckLowersMissing(mid, k, step);
    assert Missing(mid.sys) == Missing(f.sys);
  }

  /** One more proposal for k can be had. */
  lemma AskOnce(f: Fifo, k: Key) returns (steps: seq<FStep>, g: Fifo)
    requires FSafe(f) && Asking(f.sys, k)
    ensures Continues(f, steps, g) && FSafe(g) && Missing(g.sys) < Missing(f.sys)
    ensures Advances(f.sys, g.sys, k)
  {
    var b, mid, a := DeliverData(f, k);
    steps, g := ThenAnswered(f, b, mid, k, ReceiveAck(a));
  }

  /** One more process can be told the final number of k. */
  lemma AnnounceOnce(f: Fifo, k: Key) returns (steps: seq<FStep>, g: Fifo)
    requires FSafe(f) && f.sys.Final(k) && f.sys.senders[k].next < |f.sys.nodes|
    ensures Continues(f, steps, g) && FSafe(g) && Missing(g.sys) < Missing(f.sys)
    ensures Advances(f.sys, g.sys, k)
  {
    var b, mid := DeliverSeq(f, k);
    steps, g := ThenAnswered(f, b, mid, k, ReceiveSeqAck(f.sys.senders[k].next, k));
  }

  ghost predicate AllDone(s: System) {
    forall k :: k in s.senders ==> s.Final(k) && s.senders[k].next == |s.nodes|
  }

  lemma {:induction false} RunToEnd(f: Fifo) returns (steps: seq<FStep>, g: Fifo)
    requires FSafe(f)
    ensures Continues(f, steps, g) && FSafe(g) && AllDone(g.sys)
    decreases |Missing(f.sys)|
  {
    if k :| k in f.sys.senders && !(f.sys.Final(k) && f.sys.senders[k].next == |f.sys.nodes|) {
      assert SenderOk(f.sys, k);
      var a, mid;
      if f.sys.Final(k) {
        a, mid := AnnounceOnce(f, k);
      } else {
        a, mid := AskOnce(f, k);
      }
      SmallerSet(Missing(mid.sys), Missing(f.sys));
      var b;
      b, g := RunToEnd(mid);
      Chain(f, a, mid, b, g);
      steps := a + b;
    } else {
      steps, g := [], f;
    }
  }

  lemma SmallerSet<T>(a: set<T>, b: set<T>)
    requires a < b
    ensures |a| < |b|
  {
    assert b == a + (b - a);
  }

  /** Every launched message, and nothing else, delivered exactly once at every process,
      and all queues empty. */
  ghost predicate Complete(s: System) {
    forall q {:trigger CompleteAt(s, q)} :: 0 <= q < |s.nodes| ==> CompleteAt(s, q)
  }

  ghost predicate CompleteAt(s: System, q: nat)
    requires q < |s.nodes|
  {
    && s.nodes[q].proc.queue == EMPTY
    && NoRepeat(s.nodes[q].log)
    && (forall m :: m in s.nodes[q].log <==> s.Final(m.key) && s.senders[m.key].final == m)
    && (forall k :: k in s.senders ==> HasKey(s.nodes[q].log, k))
  }

  ghost predicate Agreed(s: System) {
    forall p, q :: 0 <= p < |s.nodes| && 0 <= q < |s.nodes| ==> s.nodes[p].log == s.nodes[q].log
  }

  lemma DoneIsTold(s: System, q: nat)
    requires Safe(s) && AllDone(s) && q < |s.nodes|
    ensures AllTold(s, q)
  {
    forall k | k in s.senders ensures (q, k) in s.seqAcks {
      assert SenderOk(s, k);
    }
  }

  lemma DoneIsComplete(f: Fifo)
    requires FSafe(f) && AllDone(f.sys)
    ensures Complete(f.sys)
  {
    forall q | 0 <= q < |f.sys.nodes| ensures CompleteAt(f.sys, q) {
      DoneIsTold(f.sys, q);
      ToldQueueEmpty(f, q);
      ToldLogComplete(f, q);
      assert Once(f.sys.nodes[q]);
      forall k | k in f.sys.senders ensures HasKey(f.sys.nodes[q].log, k) {
        assert SenderOk(f.sys, k);
      }
    }
  }

  lemma CompleteKeys(s: System, q: nat, k: Key)
    requires Complete(s) && q < |s.nodes|
    ensures HasKey(s.nodes[q].log, k) <==> k in s.senders
  {
    assert CompleteAt(s, q);
  }

  lemma DoneIsAgreed(f: Fifo)
    requires FGood(f) && AllDone(f.sys)
    ensures Agreed(f.sys)
  {
    forall p, q | 0 <= p < |f.sys.nodes| && 0 <= q < |f.sys.nodes|
      ensures f.sys.nodes[p].log == f.sys.nodes[q].log
    {
      DoneIsTold(f.sys, p);
      DoneIsTold(f.sys, q);
      ToldLogComplete(f, p);
      ToldLogComplete(f, q);
      GoodFullPrefix(f, p, q);
    }
  }

  /** Whichever message still misses acknowledgements, some run without losses moves the
      sender of that message on by one, and no other. */
  lemma MeasureCanFall(n: nat, before: seq<FStep>, f: Fifo, k: Key) returns (steps: seq<FStep>, g: Fifo)
    requires 0 < n < 0x1_0000_0000 && FExecutes(FInit(n), before, f)
    requires k in f.sys.senders && Progress(n, f.sys.senders[k]) < 2 * n
    ensures FExecutes(f, steps, g) && Clean(steps)
    ensures Advances(f.sys, g.sys, k) && |Missing(g.sys)| < |Missing(f.sys)|
  {
    FReachableSafe(n, before, f);
    assert SenderOk(f.sys, k);
    if f.sys.Final(k) {
      steps, g := AnnounceOnce(f, k);
    } else {
      steps, g := AskOnce(f, k);
    }
    SmallerSet(Missing(g.sys), Missing(f.sys));
  }

  /** From every reachable state, wrapped or not, some run without losses ends with every
      launched message delivered exactly once at every process and all queues empty; and
      with all logs equal, if no counter has wrapped by then. With fewer than 2^32 pairs
      of a process and a launched message none has. */
  lemma EventualCompleteness(n: nat, before: seq<FStep>, f: Fifo) returns (steps: seq<FStep>, g: Fifo)
    requires 0 < n < 0x1_0000_0000 && FExecutes(FInit(n), before, f)
    ensures FExecutes(f, steps, g) && Clean(steps)
    ensures g.sys.senders.Keys == f.sys.senders.Keys && Missing(g.sys) == {} && Complete(g.sys)
    ensures forall q, k :: 0 <= q < |g.sys.nodes| ==>
              (HasKey(g.sys.nodes[q].log, k) <==> Local(Launch(k)) in before)
    ensures !FWrapsAlong(FInit(n), before + steps) ==> Agreed(g.sys)
    ensures Bounded(f) ==> !FWrapsAlong(FInit(n), before + steps)
  {
    FReachableSafe(n, before, f);
    steps, g := RunToEnd(f);
    DoneIsComplete(g);
    forall q, k | 0 <= q < |g.sys.nodes| ensures HasKey(g.sys.nodes[q].log, k) <==> Local(Launch(k)) in before {
      FLaunchedExactly(n, before, f, k);
      CompleteKeys(g.sys, q, k);
    }
    Concat(FInit(n), before, f, steps, g);
    FReachableGood(n, before + steps, g);
    if FReaches(n, before + steps, g) {
      DoneIsAgreed(g);
    }
    if Bounded(f) {
      MoreSendersBounded(g, f);
    }
  }

  /** Any messages of the n processes can be launched. */
  lemma {:induction false} LaunchAll(n: nat, keys: set<Key>) returns (steps: seq<FStep>, g: Fifo)
    requires 0 < n < 0x1_0000_0000 && forall k :: k in keys ==> k.sender < n
    ensures FExecutes(FInit(n), steps, g) && g.sys.senders.Keys == keys
    decreases |keys|
  {
    if k :| k in keys {
      var before, f := LaunchAll(n, keys - {k});
      var step := Local(Launch(k));
      g := FApply(f, step);
      assert FExecutes(g, [], g) && [step][1..] == [];
      Concat(FInit(n), before, f, [step], g);
      steps := before + [step];
    } else {
      steps, g := [], FInit(n);
    }
  }

  /** Whatever messages n processes are to send, in some run without losses each is
      delivered exactly once at every process and nothing else is; in the same order
      everywhere, if there are fewer than 2^32 pairs of a process and a message. */
  lemma AnyMessagesDelivered(n: nat, keys: set<Key>) returns (steps: seq<FStep>, g: Fifo)
    requires 0 < n < 0x1_0000_0000 && forall k :: k in keys ==> k.sender < n
    ensures FExecutes(FInit(n), steps, g) && Complete(g.sys) && g.sys.senders.Keys == keys
    ensures forall q, k :: 0 <= q < |g.sys.nodes| ==> (HasKey(g.sys.nodes[q].log, k) <==> k in keys)
    ensures n * |keys| < 0x1_0000_0000 ==> Agreed(g.sys)
  {
    var before, f := LaunchAll(n, keys);
    var more;
    more, g := EventualCompleteness(n, before, f);
    Concat(FInit(n), before, f, more, g);
    steps := before + more;
    forall q, k | 0 <= q < |g.sys.nodes| ensures HasKey(g.sys.nodes[q].log, k) <==> k in keys {
      CompleteKeys(g.sys, q, k);
    }
    assert |f.sys.senders| == |f.sys.senders.Keys|;
  }
}
