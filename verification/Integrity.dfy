/** Where everything in the system comes from: messages from launches, datagrams from the
    steps that put them out, deliveries from all three. */
module Integrity {
  import opened Wire
  import opened HoldBack
  import opened Processes
  import opened TotalOrder
  import opened Safety

  lemma StepLaunches(s: System, step: Step, k: Key)
    requires Sized(s) && Enabled(s, step)
    ensures k in Apply(s, step).senders <==> k in s.senders || step == Launch(k)
  {
  }

  lemma {:induction false} RunLaunches(s: System, steps: seq<Step>, t: System, k: Key)
    requires Sized(s) && Executes(s, steps, t)
    ensures k in t.senders <==> k in s.senders || Launch(k) in steps
    decreases |steps|
  {
    if steps != [] {
      assert steps == [steps[0]] + steps[1..];
      StepLaunches(s, steps[0], k);
      RunLaunches(Apply(s, steps[0]), steps[1..], t, k);
    }
  }

  /** The messages of the system are exactly those that the run launched. */
  lemma LaunchedExactly(n: nat, steps: seq<Step>, s: System, k: Key)
    requires 0 < n < 0x1_0000_0000 && Executes(Init(n), steps, s)
    ensures k in s.senders <==> Launch(k) in steps
  {
    RunLaunches(Init(n), steps, s, k);
  }

  /** The step puts Data of k out to q, or Seq m out to q; it makes its process answer with
      Ack a, or confirm k from q. */
  predicate PutsData(s: System, step: Step, q: nat, k: Key) {
    step == SendData(k) && Asking(s, k) && |s.senders[k].acks| == q
  }

  predicate PutsSeq(s: System, step: Step, q: nat, m: SeqMessage) {
    step.SendSeq? && s.Final(step.k) && s.senders[step.k].next == q && s.senders[step.k].final == m
  }

  predicate GivesAck(s: System, step: Step, a: AckMessage)
    requires Sized(s)
  {
    step.ReceiveData? && step.q < |s.nodes| && HandleData(s.nodes[step.q].proc, step.q, step.k).1 == a
  }

  predicate GivesSeqAck(step: Step, q: nat, k: Key) {
    step.ReceiveSeq? && step.q == q && step.m.key == k
  }

  /** Each holds of some step of a run. */
  ghost predicate DataPut(s: System, steps: seq<Step>, q: nat, k: Key)
    requires Sized(s)
    decreases |steps|
  {
    && steps != [] && Enabled(s, steps[0])
    && (PutsData(s, steps[0], q, k) || DataPut(Apply(s, steps[0]), steps[1..], q, k))
  }

  ghost predicate SeqPut(s: System, steps: seq<Step>, q: nat, m: SeqMessage)
    requires Sized(s)
    decreases |steps|
  {
    && steps != [] && Enabled(s, steps[0])
    && (PutsSeq(s, steps[0], q, m) || SeqPut(Apply(s, steps[0]), steps[1..], q, m))
  }

  ghost predicate AckGiven(s: System, steps: seq<Step>, a: AckMessage)
    requires Sized(s)
    decreases |steps|
  {
    && steps != [] && Enabled(s, steps[0])
    && (GivesAck(s, steps[0], a) || AckGiven(Apply(s, steps[0]), steps[1..], a))
  }

  lemma StepNetwork(s: System, step: Step, q: nat, k: Key, m: SeqMessage, a: AckMessage)
    requires Sized(s) && Enabled(s, step)
    ensures var t := Apply(s, step);
            && ((q, k) in t.data <==> (q, k) in s.data || PutsData(s, step, q, k))
            && ((q, m) in t.seqs <==> (q, m) in s.seqs || PutsSeq(s, step, q, m))
            && (a in t.acks <==> a in s.acks || GivesAck(s, step, a))
            && ((q, k) in t.seqAcks <==> (q, k) in s.seqAcks || GivesSeqAck(step, q, k))
  {
  }

  lemma {:induction false} RunNetwork(s: System, steps: seq<Step>, t: System,
                                      q: nat, k: Key, m: SeqMessage, a: AckMessage)
    requires Sized(s) && Executes(s, steps, t)
    ensures (q, k) in t.data <==> (q, k) in s.data || DataPut(s, steps, q, k)
    ensures (q, m) in t.seqs <==> (q, m) in s.seqs || SeqPut(s, steps, q, m)
    ensures a in t.acks <==> a in s.acks || AckGiven(s, steps, a)
    ensures (q, k) in t.seqAcks <==> (q, k) in s.seqAcks || exists step :: step in steps && GivesSeqAck(step, q, k)
    decreases |steps|
  {
    if steps != [] {
      assert steps == [steps[0]] + steps[1..];
      StepNetwork(s, steps[0], q, k, m, a);
      RunNetwork(Apply(s, steps[0]), steps[1..], t, q, k, m, a);
    }
  }

  /** What can be received is exactly what was put out, however long ago and however often
      it was received before, and nothing is acknowledged or confirmed but by a process
      that received the datagram. */
  lemma NetworkExactly(n: nat, steps: seq<Step>, s: System, q: nat, k: Key, m: SeqMessage, a: AckMessage)
    requires 0 < n < 0x1_0000_0000 && Executes(Init(n), steps, s)
    ensures Enabled(s, ReceiveData(q, k)) <==> DataPut(Init(n), steps, q, k)
    ensures Enabled(s, ReceiveSeq(q, m)) <==> SeqPut(Init(n), steps, q, m)
    ensures a in s.acks <==> AckGiven(Init(n), steps, a)
    ensures (q, k) in s.seqAcks <==> exists step :: step in steps && GivesSeqAck(step, q, k)
  {
    ReachableSafe(n, steps, s);
    RunNetwork(Init(n), steps, s, q, k, m, a);
    assert (q, m) in s.seqs ==> SeqOk(s, q, m);
  }

  /** Nothing is delivered that the run did not launch, send to the process and have
      sequenced there. */
  lemma DeliveredWasSent(n: nat, steps: seq<Step>, s: System, q: nat, m: SeqMessage)
    requires 0 < n < 0x1_0000_0000 && Executes(Init(n), steps, s)
    requires q < |s.nodes| && m in s.nodes[q].log
    ensures m.key in s.senders && Launch(m.key) in steps && (q, m.key) in s.data && (q, m) in s.seqs
    ensures ReceiveData(q, m.key) in steps && ReceiveSeq(q, m) in steps
  {
    ReachableSafe(n, steps, s);
    LaunchedExactly(n, steps, s, m.key);
    var a := DeliveredWasAcked(s, q, m);
    InitSafe(n);
    RunReceives(Init(n), steps, s, q, m, a);
    var x :| ReceiveSeq(q, x) in steps && x.key == m.key && (q, x) in s.seqs;
    assert SeqOk(s, q, x);
  }

  lemma DeliveredWasAcked(s: System, q: nat, m: SeqMessage) returns (a: AckMessage)
    requires Safe(s) && q < |s.nodes| && m in s.nodes[q].log
    ensures a in s.acks && a.key == m.key && a.proposer == q
    ensures s.Final(m.key) && s.senders[m.key].final == m && (q, m.key) in s.seqAcks
  {
    assert NodeOk(s, q) && Handled(s, q, m) && SenderOk(s, m.key);
    a := AckMessage(m.key, s.senders[m.key].acks[q], q);
  }

  /** Every Ack and every SeqAck goes back to a reception of a datagram that was sent. */
  lemma {:induction false} RunReceives(s: System, steps: seq<Step>, t: System, q: nat, m: SeqMessage, a: AckMessage)
    requires Safe(s) && Executes(s, steps, t)
    ensures a in t.acks && a !in s.acks ==>
              ReceiveData(a.proposer, a.key) in steps && (a.proposer as nat, a.key) in t.data
    ensures (q, m.key) in t.seqAcks && (q, m.key) !in s.seqAcks ==>
              exists x :: ReceiveSeq(q, x) in steps && x.key == m.key && (q, x) in t.seqs
    decreases |steps|
  {
    if steps != [] {
      var mid := Apply(s, steps[0]);
      assert steps == [steps[0]] + steps[1..];
      StepSafe(s, steps[0]);
      StepReceives(s, steps[0], q, m, a);
      RunReceives(mid, steps[1..], t, q, m, a);
      RunExtends(mid, steps[1..], t);
    }
  }

  lemma StepReceives(s: System, step: Step, q: nat, m: SeqMessage, a: AckMessage)
    requires Safe(s) && Enabled(s, step)
    ensures var t := Apply(s, step);
            && (a in t.acks && a !in s.acks ==>
                  step == ReceiveData(a.proposer, a.key) && (a.proposer as nat, a.key) in t.data)
            && ((q, m.key) in t.seqAcks && (q, m.key) !in s.seqAcks ==>
                  step.ReceiveSeq? && step.q == q && step.m.key == m.key && (q, step.m) in t.seqs)
  {
    if step.ReceiveData? {
      assert NodeOk(s, step.q);
      if step.k in s.Pending(step.q) {
        RepeatedData(s, step.q, step.k);
      }
    }
  }
}
