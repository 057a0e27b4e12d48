/** The inductive invariant of the system over the arbitrary network, for as long as no
    counter wraps: numbers only grow, and deliveries come in order. */
module Invariant {
  import opened Wire
  import opened Ordering
  import opened HoldBack
  import opened Processes
  import opened TotalOrder
  import opened Safety

  // ----- first deliveries

  predicate HasKey(log: seq<SeqMessage>, k: Key) {
    exists m | m in log :: m.key == k
  }

  /** A delivery log with every repeated delivery of a message left out. */
  function FirstDeliveries(log: seq<SeqMessage>): (r: seq<SeqMessage>)
    ensures forall m :: m in r ==> m in log
    ensures forall m :: m in log ==> HasKey(r, m.key)
  {
    if log == [] then []
    else
      var front, last := log[..|log| - 1], log[|log| - 1];
      var r := FirstDeliveries(front);
      assert log == front + [last];
      if HasKey(front, last.key) then
        assert forall m :: m in front ==> HasKey(r, m.key);
        var m0 :| m0 in front && m0.key == last.key;
        assert HasKey(r, m0.key);
        r
      else
        assert forall m :: m in r ==> m in r + [last];
        r + [last]
  }

  ghost predicate OneStampPerKey(ms: seq<SeqMessage>) {
    forall a, b :: a in ms && b in ms && a.key == b.key ==> a == b
  }

  lemma {:induction false} AppendDeliveries(log: seq<SeqMessage>, out: seq<SeqMessage>)
    requires Increasing(FirstDeliveries(log)) && Increasing(out) && OneStampPerKey(log + out)
    requires forall x :: x in out ==> x in log || forall m :: m in log ==> Before(m, x)
    ensures Increasing(FirstDeliveries(log + out))
  {
    if out == [] {
      assert log + out == log;
    } else {
      var front, last := out[..|out| - 1], out[|out| - 1];
      var seen := log + front;
      assert log + out == seen + [last] && (log + out)[..|log + out| - 1] == seen;
      AppendDeliveries(log, front);
      if !HasKey(seen, last.key) {
        forall m | m in FirstDeliveries(seen) ensures Before(m, last) {
          BeforeLast(log, out, m);
        }
        IncreasingSnoc(FirstDeliveries(seen), last);
      }
    }
  }

  lemma IncreasingSnoc(r: seq<SeqMessage>, x: SeqMessage)
    requires Increasing(r) && forall m :: m in r ==> Before(m, x)
    ensures Increasing(r + [x])
  {
  }

  lemma BeforeLast(log: seq<SeqMessage>, out: seq<SeqMessage>, m: SeqMessage)
    requires out != [] && Increasing(out)
    requires out[|out| - 1] in log || forall x :: x in log ==> Before(x, out[|out| - 1])
    requires m in log + out[..|out| - 1] && !HasKey(log + out[..|out| - 1], out[|out| - 1].key)
    ensures Before(m, out[|out| - 1])
  {
  }

  // ----- the invariant

  /** A proposal's number is positive, and its proposer's counter has reached it. */
  ghost predicate NumberOk(s: System, a: AckMessage) {
    a.proposer < |s.nodes| && 1 <= a.proposedSeq <= s.nodes[a.proposer].proc.counter
  }

  ghost predicate NoNumberTwice(s: System) {
    forall a, b :: a in s.acks && b in s.acks && a.proposer == b.proposer && a.proposedSeq == b.proposedSeq ==> a == b
  }

  /** The counter of q has reached a final number q was told. */
  ghost predicate ToldOk(s: System, q: nat, k: Key) {
    q < |s.nodes| && s.Final(k) && s.senders[k].final.finalSeq <= s.nodes[q].proc.counter
  }

  ghost predicate Numbered(s: System) {
    && (forall a :: a in s.acks ==> NumberOk(s, a))
    && NoNumberTwice(s)
    && (forall q, k :: (q, k) in s.seqAcks ==> ToldOk(s, q, k))
    && (forall q :: 0 <= q < |s.nodes| ==> s.nodes[q].proc.counter <= |s.acks|)
  }

  /** Everything delivered at q sorts before everything q still holds. */
  ghost predicate Closed(v: Node) {
    forall m, e :: m in v.log && e in v.proc.queue.ordering ==> Less(EntryOf(m), e)
  }

  /** First deliveries come in order. */
  ghost predicate LogOk(v: Node) {
    Increasing(FirstDeliveries(v.log))
  }

  ghost predicate Good(s: System) {
    && Safe(s)
    && Numbered(s)
    && (forall q {:trigger Closed(s.nodes[q])} :: 0 <= q < |s.nodes| ==> Closed(s.nodes[q]))
    && (forall q {:trigger LogOk(s.nodes[q])} :: 0 <= q < |s.nodes| ==> LogOk(s.nodes[q]))
  }

  lemma InitGood(n: nat)
    requires 0 < n < 0x1_0000_0000
    ensures Good(Init(n))
  {
    InitSafe(n);
  }

  lemma SubsetSize<T>(a: set<T>, b: set<T>)
    requires a <= b
    ensures |a| <= |b|
  {
    assert b == a + (b - a);
  }

  // ----- steps of senders

  lemma SenderStepKeeps(s: System, step: Step)
    requires Good(s) && Enabled(s, step) && IsSenderStep(step)
    ensures Good(Apply(s, step))
  {
    var t := Apply(s, step);
    SenderStepSafe(s, step);
    StepExtends(s, step);
    assert t.nodes == s.nodes && t.acks == s.acks && t.seqAcks == s.seqAcks;
    forall a | a in t.acks ensures NumberOk(t, a) {
      assert NumberOk(s, a);
    }
    forall q, k | (q, k) in t.seqAcks ensures ToldOk(t, q, k) {
      assert ToldOk(s, q, k);
    }
  }

  // ----- a Data message received

  /** A step that only concerns process q. */
  lemma NodeStepKeeps(s: System, t: System, q: nat)
    requires Good(s) && Safe(t) && Numbered(t) && q < |s.nodes| == |t.nodes|
    requires forall r :: 0 <= r < |s.nodes| && r != q ==> t.nodes[r] == s.nodes[r]
    requires Closed(t.nodes[q]) && LogOk(t.nodes[q])
    ensures Good(t)
  {
    forall r | 0 <= r < |t.nodes| ensures Closed(t.nodes[r]) && LogOk(t.nodes[r]) {
      assert r != q ==> Closed(s.nodes[r]) && LogOk(s.nodes[r]);
    }
  }

  lemma AcceptsNumbers(s: System, t: System, q: nat, k: Key, c: u32)
    requires Numbered(s) && Accepts(s, t, q, k, c) && c == s.nodes[q].proc.counter + 1
    ensures NoNumberTwice(t) && forall a :: a in t.acks ==> NumberOk(t, a)
    ensures |t.acks| == |s.acks| + 1
  {
    var ack := AckMessage(k, c, q);
    forall a | a in s.acks ensures a.proposer == q ==> a.proposedSeq < c {
      assert NumberOk(s, a);
    }
    assert ack !in s.acks;
    forall a | a in t.acks ensures NumberOk(t, a) {
      assert a in s.acks ==> NumberOk(s, a);
    }
  }

  lemma AcceptsNumbered(s: System, t: System, q: nat, k: Key, c: u32)
    requires Numbered(s) && Accepts(s, t, q, k, c) && c == s.nodes[q].proc.counter + 1
    ensures Numbered(t)
  {
    AcceptsNumbers(s, t, q, k, c);
    forall r, j | (r, j) in t.seqAcks ensures ToldOk(t, r, j) {
      assert ToldOk(s, r, j);
    }
    forall r | 0 <= r < |t.nodes| ensures t.nodes[r].proc.counter <= |t.acks| {
      assert s.nodes[r].proc.counter <= |s.acks|;
    }
  }

  lemma DeliveredBelowCounter(s: System, q: nat)
    requires Good(s) && q < |s.nodes|
    ensures forall m :: m in s.nodes[q].log ==> m.finalSeq <= s.nodes[q].proc.counter
  {
    assert NodeOk(s, q);
    forall m | m in s.nodes[q].log ensures m.finalSeq <= s.nodes[q].proc.counter {
      assert Handled(s, q, m) && ToldOk(s, q, m.key);
    }
  }

  lemma AdmitsClosed(v: Node, v': Node, k: Key, p: Proposal)
    requires Admits(v, v', k, p) && Closed(v) && p.number == v.proc.counter + 1
    requires forall m :: m in v.log ==> m.finalSeq <= v.proc.counter
    ensures Closed(v')
  {
  }

  lemma AcceptsKeeps(s: System, t: System, q: nat, k: Key, c: u32)
    requires Good(s) && Safe(t) && Accepts(s, t, q, k, c) && c == s.nodes[q].proc.counter + 1
    ensures Good(t)
  {
    assert Closed(s.nodes[q]) && LogOk(s.nodes[q]);
    AcceptsNumbered(s, t, q, k, c);
    DeliveredBelowCounter(s, q);
    AdmitsClosed(s.nodes[q], t.nodes[q], k, Proposal(c, q));
    NodeStepKeeps(s, t, q);
  }

  lemma AcceptsNext(s: System, q: nat, k: Key)
    requires Safe(s) && Enabled(s, ReceiveData(q, k)) && k !in s.Pending(q)
    requires s.nodes[q].proc.counter < 0xFFFF_FFFF
    ensures Accepts(s, Apply(s, ReceiveData(q, k)), q, k, s.nodes[q].proc.counter + 1)
  {
    assert QueueOk(s.nodes[q]);
    HandleDataAccepts(s, q, k);
  }

  lemma FreshDataKeeps(s: System, q: nat, k: Key)
    requires Good(s) && Enabled(s, ReceiveData(q, k)) && k !in s.Pending(q)
    requires s.nodes[q].proc.counter < 0xFFFF_FFFF
    ensures Good(Apply(s, ReceiveData(q, k)))
  {
    AcceptsNext(s, q, k);
    ReceiveDataSafe(s, q, k);
    AcceptsKeeps(s, Apply(s, ReceiveData(q, k)), q, k, s.nodes[q].proc.counter + 1);
  }

  lemma ReceiveDataKeeps(s: System, q: nat, k: Key)
    requires Good(s) && Enabled(s, ReceiveData(q, k)) && !Wraps(s, ReceiveData(q, k))
    ensures Good(Apply(s, ReceiveData(q, k)))
  {
    if k in s.Pending(q) {
      assert NodeOk(s, q);
      RepeatedData(s, q, k);
    } else {
      FreshDataKeeps(s, q, k);
    }
  }

  /** A wrapping step proposes number 0, which no state that keeps the invariant has. */
  lemma WrapProposesZero(s: System, step: Step)
    requires Sized(s) && Enabled(s, step) && Wraps(s, step)
    ensures AckMessage(step.k, 0, step.q) in Apply(s, step).acks
  {
  }

  // ----- a Seq message received

  /** If m was delivered before, it is delivered again. */
  lemma DeliveredAgain(v: Node, m: SeqMessage)
    requires QueueOk(v) && Closed(v) && m.key in v.proc.queue.pending && m in v.log && OneFinalHeld(v, m)
    ensures m in HandleSeq(v.proc, m).1
  {
  }

  lemma FinalInRange(s: System, k: Key)
    requires Safe(s) && Numbered(s) && s.Final(k)
    ensures 1 <= s.senders[k].final.finalSeq <= |s.acks|
  {
    FinalIsProposed(s, k);
    var f := s.senders[k].final;
    assert NumberOk(s, AckMessage(k, f.finalSeq, f.finalSeqProposer));
  }

  /** A message q has not delivered sorts after all that q has delivered. */
  lemma UndeliveredIsAfter(s: System, q: nat, k: Key, l: SeqMessage)
    requires Good(s) && s.Final(k) && q < |s.nodes|
    requires s.senders[k].final !in s.nodes[q].log && l in s.nodes[q].log
    ensures Less(EntryOf(l), EntryOf(s.senders[k].final)) && Before(l, s.senders[k].final)
  {
    assert Closed(s.nodes[q]);
    if (q, k) in s.seqAcks {
      assert SeqAckOk(s, q, k);
    } else {
      FinalDominatesPending(s, q, k);
      assert QueueOk(s.nodes[q]);
      assert Unsequenced(k, s.Pending(q)[k]) in s.Held(q);
    }
  }

  /** What q delivers on m sorts after all that q has delivered, unless it is m itself
      delivered again. */
  lemma DeliveredIsAfter(s: System, t: System, q: nat, m: SeqMessage, out: seq<SeqMessage>,
                         x: SeqMessage, l: SeqMessage)
    requires Good(s) && Sequences(s, t, q, m, out)
    requires x in out && l in s.nodes[q].log && (x != m || m !in s.nodes[q].log)
    ensures Before(l, x)
  {
    if x == m {
      UndeliveredIsAfter(s, q, m.key, l);
    } else {
      assert Closed(s.nodes[q]);
      assert Less(EntryOf(l), EntryOf(x));
    }
  }

  lemma SequencesClosed(s: System, t: System, q: nat, m: SeqMessage, out: seq<SeqMessage>)
    requires Good(s) && Sequences(s, t, q, m, out) && (m in s.nodes[q].log ==> m in out)
    ensures Closed(t.nodes[q])
  {
    assert Closed(s.nodes[q]);
    forall l, e | l in t.nodes[q].log && e in t.nodes[q].proc.queue.ordering ensures Less(EntryOf(l), e) {
      if l !in out && e == EntryOf(m) {
        assert m !in s.nodes[q].log;
        UndeliveredIsAfter(s, q, m.key, l);
      }
    }
  }

  lemma LogHasOneStamp(s: System, q: nat)
    requires Safe(s) && q < |s.nodes|
    ensures OneStampPerKey(s.nodes[q].log)
  {
    assert NodeOk(s, q);
    forall a, b | a in s.nodes[q].log && b in s.nodes[q].log && a.key == b.key ensures a == b {
      assert Handled(s, q, a) && Handled(s, q, b);
    }
  }

  lemma SequencesLog(s: System, t: System, q: nat, m: SeqMessage, out: seq<SeqMessage>)
    requires Good(s) && Sequences(s, t, q, m, out) && Safe(t)
    ensures LogOk(t.nodes[q])
  {
    var log := s.nodes[q].log;
    assert LogOk(s.nodes[q]);
    forall x | x in out ensures x in log || forall l :: l in log ==> Before(l, x) {
      if x !in log {
        forall l | l in log ensures Before(l, x) {
          DeliveredIsAfter(s, t, q, m, out, x, l);
        }
      }
    }
    LogHasOneStamp(t, q);
    AppendDeliveries(log, out);
  }

  /** A process told m forwards its counter, and nothing else changes its number. */
  ghost predicate Forwards(s: System, t: System, q: nat, m: SeqMessage) {
    && q < |s.nodes| == |t.nodes| && SeqOk(s, q, m)
    && t.senders == s.senders && t.acks == s.acks && t.seqAcks == s.seqAcks + {(q, m.key)}
    && t.nodes[q].proc.counter == ForwardSeqNum(s.nodes[q].proc.counter, m.finalSeq)
    && forall r :: 0 <= r < |s.nodes| && r != q ==> t.nodes[r] == s.nodes[r]
  }

  lemma ForwardsNumbered(s: System, t: System, q: nat, m: SeqMessage)
    requires Numbered(s) && Forwards(s, t, q, m) && m.finalSeq <= |s.acks|
    ensures Numbered(t)
  {
    forall a | a in t.acks ensures NumberOk(t, a) {
      assert NumberOk(s, a);
    }
    forall r, j | (r, j) in t.seqAcks ensures ToldOk(t, r, j) {
      assert (r, j) in s.seqAcks ==> ToldOk(s, r, j);
    }
  }

  lemma ReceiveSeqNumbered(s: System, q: nat, m: SeqMessage)
    requires Safe(s) && Numbered(s) && Enabled(s, ReceiveSeq(q, m))
    ensures Numbered(Apply(s, ReceiveSeq(q, m)))
  {
    assert SeqOk(s, q, m);
    FinalInRange(s, m.key);
    ForwardsNumbered(s, Apply(s, ReceiveSeq(q, m)), q, m);
  }

  lemma SequencesKeeps(s: System, q: nat, m: SeqMessage)
    requires Good(s) && Enabled(s, ReceiveSeq(q, m)) && m.key in s.Pending(q)
    ensures var t := Apply(s, ReceiveSeq(q, m)); Safe(t) && Closed(t.nodes[q]) && LogOk(t.nodes[q])
  {
    var t, out := Apply(s, ReceiveSeq(q, m)), HandleSeq(s.nodes[q].proc, m).1;
    ReceiveSeqSafe(s, q, m);
    ReceiveSeqSequences(s, q, m);
    assert QueueOk(s.nodes[q]) && Closed(s.nodes[q]);
    OneFinal(s, q, m);
    if m in s.nodes[q].log {
      DeliveredAgain(s.nodes[q], m);
    }
    SequencesClosed(s, t, q, m, out);
    SequencesLog(s, t, q, m, out);
  }

  lemma ReplaysKeeps(s: System, q: nat, m: SeqMessage)
    requires Good(s) && Enabled(s, ReceiveSeq(q, m)) && m.key !in s.Pending(q)
    ensures var t := Apply(s, ReceiveSeq(q, m)); Safe(t) && Closed(t.nodes[q]) && LogOk(t.nodes[q])
  {
    ReceiveSeqSafe(s, q, m);
    ReceiveSeqReplays(s, q, m);
    assert Closed(s.nodes[q]) && LogOk(s.nodes[q]);
  }

  lemma ReceiveSeqKeeps(s: System, q: nat, m: SeqMessage)
    requires Good(s) && Enabled(s, ReceiveSeq(q, m))
    ensures Good(Apply(s, ReceiveSeq(q, m)))
  {
    ReceiveSeqNumbered(s, q, m);
    if m.key in s.Pending(q) {
      SequencesKeeps(s, q, m);
    } else {
      ReplaysKeeps(s, q, m);
    }
    NodeStepKeeps(s, Apply(s, ReceiveSeq(q, m)), q);
  }

  // ----- whole runs

  /** A step keeps the invariant if and only if it does not wrap a counter. */
  lemma StepKeeps(s: System, step: Step)
    requires Good(s) && Enabled(s, step)
    ensures Good(Apply(s, step)) <==> !Wraps(s, step)
  {
    if Wraps(s, step) {
      WrapProposesZero(s, step);
      ZeroIsBad(Apply(s, step), step.k, step.q);
    } else {
      match step
      case ReceiveData(q, k) => ReceiveDataKeeps(s, q, k);
      case ReceiveSeq(q, m) => ReceiveSeqKeeps(s, q, m);
      case _ => SenderStepKeeps(s, step);
    }
  }

  lemma ZeroIsBad(s: System, k: Key, q: u32)
    requires AckMessage(k, 0, q) in s.acks
    ensures !Good(s)
  {
    assert !NumberOk(s, AckMessage(k, 0, q));
  }

  /** A run keeps the invariant if and only if no step of it wraps a counter. */
  lemma {:induction false} RunKeeps(s: System, steps: seq<Step>, t: System)
    requires Good(s) && Executes(s, steps, t)
    ensures Good(t) <==> !WrapsAlong(s, steps)
    decreases |steps|
  {
    if steps != [] {
      var step, mid := steps[0], Apply(s, steps[0]);
      StepKeeps(s, step);
      if Wraps(s, step) {
        WrapProposesZero(s, step);
        RunExtends(mid, steps[1..], t);
        ZeroIsBad(t, step.k, step.q);
      } else {
        RunKeeps(mid, steps[1..], t);
      }
    }
  }

  /** The states that n processes reach and that keep the invariant are exactly those
      reached without wrapping a counter. */
  lemma ReachableGood(n: nat, steps: seq<Step>, s: System)
    requires 0 < n < 0x1_0000_0000 && Executes(Init(n), steps, s)
    ensures Good(s) <==> Reaches(n, steps, s)
  {
    InitGood(n);
    RunKeeps(Init(n), steps, s);
  }

  /** Each proposal of a process has a number of its own, so distinct proposals are
      distinct Acks, and a counter is at most the number of proposals in all. Fewer than
      2^32 of them cannot wrap a counter. */
  lemma {:induction false} FewProposalsNeverWrap(s: System, steps: seq<Step>, t: System)
    requires Good(s) && Executes(s, steps, t) && |t.acks| < 0x1_0000_0000
    ensures !WrapsAlong(s, steps)
    decreases |steps|
  {
    if steps != [] {
      var step, mid := steps[0], Apply(s, steps[0]);
      RunExtends(mid, steps[1..], t);
      SubsetSize(mid.acks, t.acks);
      if Wraps(s, step) {
        WrapNeedsProposals(s, step);
        assert false;
      }
      StepKeeps(s, step);
      FewProposalsNeverWrap(mid, steps[1..], t);
    }
  }

  lemma WrapNeedsProposals(s: System, step: Step)
    requires Good(s) && Enabled(s, step) && Wraps(s, step)
    ensures |Apply(s, step).acks| >= 0x1_0000_0000
  {
    var ack := AckMessage(step.k, 0, step.q);
    WrapProposesZero(s, step);
    assert ack in s.acks ==> NumberOk(s, ack);
    StepExtends(s, step);
    SubsetSize(s.acks + {ack}, Apply(s, step).acks);
  }
}
