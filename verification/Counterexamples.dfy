/** Runs that show which promises need the ordered links, and which the caller's care. */
module Counterexamples {
  import opened Wire
  import opened Ordering
  import opened HoldBack
  import opened Processes
  import opened TotalOrder
  import opened Theorems
  import opened FifoTheorems
  import opened QueueHistory

  lemma LoneInsert(a: AckMessage)
    ensures var p := Proposal(a.proposedSeq, a.proposer);
            Enqueue(EMPTY, a) == Queue(map[a.key := p], [Unsequenced(a.key, p)])
  {
  }

  lemma LoneSequence(p: Proposal, m: SeqMessage)
    ensures Sequence(Queue(map[m.key := p], [Unsequenced(m.key, p)]), m) == (EMPTY, [m])
  {
    var e := Unsequenced(m.key, p);
    var q := Queue(map[m.key := p], [e]);
    FilterNone(x => !Equivalent(x, e), [e]);
    assert Erase([e], e) == [];
    assert !Contains([], EntryOf(m));
    assert Resequenced(q, m) == [EntryOf(m)];
    PrefixIsReleased([EntryOf(m)], 1);
    assert q.pending - {m.key} == map[];
    assert MessagesOf([EntryOf(m)]) == [m];
    assert [EntryOf(m)][..1] == [EntryOf(m)];
  }

  const KEY := Key(0, 0)
  const ACK := AckMessage(KEY, 1, 0)
  const FINAL := SeqMessage(KEY, 1, 0)

  /** One process, one message: launched, sent, and accepted with number 1. */
  lemma OneAccepted() returns (steps: seq<Step>, s: System)
    ensures Reaches(1, steps, s)
    ensures s == System([Node(ProcState(1, Queue(map[KEY := Proposal(1, 0)], [Entry(KEY, 1, 0, false)])), [])],
                        map[KEY := Collecting([])], {(0, KEY)}, {ACK}, {}, {})
  {
    var s0 := Init(1);
    assert Executes(s0, [], s0);
    Snoc(s0, [], s0, Launch(KEY));
    var s1 := Apply(s0, Launch(KEY));
    Snoc(s0, [] + [Launch(KEY)], s1, SendData(KEY));
    var s2 := Apply(s1, SendData(KEY));
    steps := [] + [Launch(KEY)] + [SendData(KEY)];
    Snoc(s0, steps, s2, ReceiveData(0, KEY));
    s := Apply(s2, ReceiveData(0, KEY));
    steps := steps + [ReceiveData(0, KEY)];
    assert s2.nodes == [Node(FRESH, [])];
    LoneInsert(ACK);
    assert HandleData(FRESH, 0, KEY) == (ProcState(1, Enqueue(EMPTY, ACK)), ACK);
    assert s.senders == map[KEY := Collecting([])];
    assert s.data == {(0, KEY)} && s.acks == {ACK};
  }

  /** Its number made final and sent out. */
  lemma OneAnnounced() returns (steps: seq<Step>, s: System)
    ensures Reaches(1, steps, s)
    ensures s == System([Node(ProcState(1, Queue(map[KEY := Proposal(1, 0)], [Entry(KEY, 1, 0, false)])), [])],
                        map[KEY := Announcing([1], FINAL, 0)], {(0, KEY)}, {ACK}, {(0, FINAL)}, {})
  {
    var s3;
    steps, s3 := OneAccepted();
    Snoc(Init(1), steps, s3, ReceiveAck(ACK));
    var s4 := Apply(s3, ReceiveAck(ACK));
    steps := steps + [ReceiveAck(ACK)];
    assert [] + [1] == [1];
    assert s4.senders == map[KEY := Announcing([1], FINAL, 0)];
    Snoc(Init(1), steps, s4, SendSeq(KEY));
    s := Apply(s4, SendSeq(KEY));
    steps := steps + [SendSeq(KEY)];
    assert s.seqs == {(0, FINAL)};
  }

  /** The message delivered. */
  lemma OneDelivered() returns (steps: seq<Step>, s: System)
    ensures Reaches(1, steps, s)
    ensures s == System([Node(ProcState(1, EMPTY), [FINAL])], map[KEY := Announcing([1], FINAL, 0)],
                        {(0, KEY)}, {ACK}, {(0, FINAL)}, {(0, KEY)})
  {
    var s5;
    steps, s5 := OneAnnounced();
    Snoc(Init(1), steps, s5, ReceiveSeq(0, FINAL));
    s := Apply(s5, ReceiveSeq(0, FINAL));
    steps := steps + [ReceiveSeq(0, FINAL)];
    LoneSequence(Proposal(1, 0), FINAL);
    assert HandleSeq(s5.nodes[0].proc, FINAL) == (ProcState(1, EMPTY), [FINAL]);
    assert [] + [FINAL] == [FINAL];
    assert s.nodes == [Node(ProcState(1, EMPTY), [FINAL])];
    assert s.seqAcks == {(0, KEY)};
  }

  /** Over the arbitrary network a Data copy that arrives after the Seq is accepted as a
      new message: every process has been told everything, and the queue is not empty. */
  lemma ArbitraryNetworkLeavesQueue() returns (steps: seq<Step>, s: System)
    ensures Reaches(1, steps, s) && AllTold(s, 0)
    ensures s.nodes == [Node(ProcState(2, Queue(map[KEY := Proposal(2, 0)], [Entry(KEY, 2, 0, false)])), [FINAL])]
    ensures (0, FINAL) in s.seqs && s.nodes[0].proc.queue != EMPTY
  {
    var s6;
    steps, s6 := OneDelivered();
    Snoc(Init(1), steps, s6, ReceiveData(0, KEY));
    s := Apply(s6, ReceiveData(0, KEY));
    steps := steps + [ReceiveData(0, KEY)];
    LoneInsert(AckMessage(KEY, 2, 0));
    assert HandleData(ProcState(1, EMPTY), 0, KEY).0.counter == 2;
    assert s.senders.Keys == {KEY};
  }

  /** And if the Seq arrives once more, the message is delivered twice. */
  lemma ArbitraryNetworkRepeats() returns (steps: seq<Step>, s: System)
    ensures Reaches(1, steps, s) && s.nodes[0].log == [FINAL, FINAL] && !NoRepeat(s.nodes[0].log)
  {
    var s7;
    steps, s7 := ArbitraryNetworkLeavesQueue();
    Snoc(Init(1), steps, s7, ReceiveSeq(0, FINAL));
    s := Apply(s7, ReceiveSeq(0, FINAL));
    steps := steps + [ReceiveSeq(0, FINAL)];
    LoneSequence(Proposal(2, 0), FINAL);
    assert s7.nodes[0].log == [FINAL];
    assert HandleSeq(s7.nodes[0].proc, FINAL).1 == [FINAL];
    assert [FINAL] + [FINAL] == [FINAL, FINAL];
    assert s.nodes[0].log[0].key == s.nodes[0].log[1].key;
  }

  // ----- the queue without its rely

  /** Two messages, each inserted and then sequenced, with nothing else around. */
  lemma TwoLoneMessages(a: AckMessage, m: SeqMessage, b: AckMessage, n: SeqMessage)
    requires a.key == m.key && b.key == n.key
    ensures Play([InsertCall(a), SequenceCall(m), InsertCall(b), SequenceCall(n)]) == (EMPTY, [m, n])
  {
    var c1, c2 := [InsertCall(a)], [InsertCall(a), SequenceCall(m)];
    var c3 := [InsertCall(a), SequenceCall(m), InsertCall(b)];
    var c4 := [InsertCall(a), SequenceCall(m), InsertCall(b), SequenceCall(n)];
    assert c1[..0] == [] && c2[..1] == c1 && c3[..2] == c2 && c4[..3] == c3;
    LoneInsert(a);
    assert Play(c1) == (Enqueue(EMPTY, a), []);
    LoneSequence(Proposal(a.proposedSeq, a.proposer), m);
    assert [] + [m] == [m];
    assert Play(c2) == (EMPTY, [m]);
    LoneInsert(b);
    assert Play(c3) == (Enqueue(EMPTY, b), [m]);
    LoneSequence(Proposal(b.proposedSeq, b.proposer), n);
    assert [m] + [n] == [m, n];
  }

  /** A final number below the proposal breaks the order, and so does a proposal that is
      not above the final numbers already told. */
  lemma RelyIsNeeded()
    ensures var j, k := Key(0, 1), Key(0, 2);
            var low := [InsertCall(AckMessage(j, 1, 0)), SequenceCall(SeqMessage(j, 5, 0)),
                        InsertCall(AckMessage(k, 6, 0)), SequenceCall(SeqMessage(k, 3, 0))];
            var stale := [InsertCall(AckMessage(j, 1, 0)), SequenceCall(SeqMessage(j, 5, 0)),
                          InsertCall(AckMessage(k, 2, 0)), SequenceCall(SeqMessage(k, 2, 0))];
            !Increasing(Play(low).1) && !Increasing(Play(stale).1)
  {
    var j, k := Key(0, 1), Key(0, 2);
    TwoLoneMessages(AckMessage(j, 1, 0), SeqMessage(j, 5, 0), AckMessage(k, 6, 0), SeqMessage(k, 3, 0));
    TwoLoneMessages(AckMessage(j, 1, 0), SeqMessage(j, 5, 0), AckMessage(k, 2, 0), SeqMessage(k, 2, 0));
    var low, stale := [SeqMessage(j, 5, 0), SeqMessage(k, 3, 0)], [SeqMessage(j, 5, 0), SeqMessage(k, 2, 0)];
    assert !Before(low[0], low[1]) && !Before(stale[0], stale[1]);
  }
}
