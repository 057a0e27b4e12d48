/** Why the counters must not wrap: a run of two processes, with a counter driven past
    2^32 - 1, in which they deliver two messages in opposite orders. */
module WrapAround {
  import opened Wire
  import opened Ordering
  import opened HoldBack
  import opened Processes
  import opened Senders
  import opened TotalOrder
  import opened Safety
  import opened Invariant
  import opened Theorems
  import opened FifoTheorems
  import opened Counterexamples

  const MAX: u32 := 0xFFFF_FFFF

  // ----- rounds of the protocol

  /** t comes after s, and whatever was sent by then can still be received. */
  ghost predicate Follows(s: System, t: System) {
    Sized(s) && Sized(t) && s.data <= t.data && s.seqs <= t.seqs && exists steps :: Executes(s, steps, t)
  }

  lemma Nothing(s: System)
    requires Sized(s)
    ensures Follows(s, s)
  {
    assert Executes(s, [], s);
  }

  lemma Then(s: System, t: System, u: System)
    requires Follows(s, t) && Follows(t, u)
    ensures Follows(s, u)
  {
    var a :| Executes(s, a, t);
    var b :| Executes(t, b, u);
    ExecutesConcat(s, a, t, b, u);
  }

  lemma OneMore(s: System, t: System, step: Step)
    requires Follows(s, t) && Enabled(t, step)
    ensures Follows(s, Apply(t, step))
  {
    var a :| Executes(s, a, t);
    Snoc(s, a, t, step);
    StepExtends(t, step);
  }

  lemma Start(s: System, k: Key) returns (t: System)
    requires Sized(s) && k.sender < |s.nodes| && k !in s.senders
    ensures Follows(s, t) && t.nodes == s.nodes && t.senders == s.senders[k := Collecting([])]
  {
    Nothing(s);
    OneMore(s, s, Launch(k));
    t := Apply(s, Launch(k));
  }

  /** The sender of k asks the next process, which has not seen k, and records its answer. */
  lemma Ask(s: System, k: Key) returns (t: System)
    requires Sized(s) && Asking(s, k) && k !in s.Pending(|s.senders[k].acks|)
    ensures var q := |s.senders[k].acks|;
            var (p, ack) := HandleData(s.nodes[q].proc, q, k);
            && Follows(s, t) && (q, k) in t.data
            && t.nodes == s.nodes[q := Node(p, s.nodes[q].log)]
            && t.senders == s.senders[k := Record(|s.nodes|, k, s.senders[k].acks + [ack.proposedSeq])]
  {
    var q := |s.senders[k].acks|;
    var ack := HandleData(s.nodes[q].proc, q, k).1;
    Nothing(s);
    OneMore(s, s, SendData(k));
    var s1 := Apply(s, SendData(k));
    OneMore(s, s1, ReceiveData(q, k));
    var s2 := Apply(s1, ReceiveData(q, k));
    assert ack in s2.acks;
    OneMore(s, s2, ReceiveAck(ack));
    t := Apply(s2, ReceiveAck(ack));
  }

  /** The sender of k tells the next process, and records its answer. */
  lemma Tell(s: System, k: Key) returns (t: System)
    requires Sized(s) && s.Final(k) && s.senders[k].next < |s.nodes| && s.senders[k].final.key == k
    ensures var q := s.senders[k].next;
            var (p, out) := HandleSeq(s.nodes[q].proc, s.senders[k].final);
            && Follows(s, t) && (q, s.senders[k].final) in t.seqs
            && t.nodes == s.nodes[q := Node(p, s.nodes[q].log + out)]
            && t.senders == s.senders[k := s.senders[k].(next := q + 1)]
  {
    var q, m := s.senders[k].next, s.senders[k].final;
    Nothing(s);
    OneMore(s, s, SendSeq(k));
    var s1 := Apply(s, SendSeq(k));
    OneMore(s, s1, ReceiveSeq(q, m));
    var s2 := Apply(s1, ReceiveSeq(q, m));
    OneMore(s, s2, ReceiveSeqAck(q, k));
    t := Apply(s2, ReceiveSeqAck(q, k));
  }

  // ----- a message alone in a queue

  function Lone(k: Key, p: Proposal): Queue {
    Queue(map[k := p], [Unsequenced(k, p)])
  }

  lemma LoneData(c: u32, q: u32, k: Key)
    ensures var d := NextSeqNum(c);
            HandleData(ProcState(c, EMPTY), q, k) == (ProcState(d, Lone(k, Proposal(d, q))), AckMessage(k, d, q))
  {
    LoneInsert(AckMessage(k, NextSeqNum(c), q));
  }

  lemma LoneSeq(c: u32, p: Proposal, m: SeqMessage)
    ensures HandleSeq(ProcState(c, Lone(m.key, p)), m) == (ProcState(ForwardSeqNum(c, m.finalSeq), EMPTY), [m])
  {
    LoneSequence(p, m);
  }

  // ----- the run

  const OTHER := Key(0, 1)
  const LATER := Key(0, 2)
  const OTHER_FINAL := SeqMessage(OTHER, MAX, 0)
  const LATER_FINAL := SeqMessage(LATER, 3, 1)

  /** Process 0 has counter c, process 1 has counter 1, both have delivered one message,
      whose Data and Seq can still reach process 0. */
  ghost predicate Pumped(s: System, c: u32) {
    && |s.nodes| == 2
    && s.nodes[0].proc == ProcState(c, EMPTY) && FirstDeliveries(s.nodes[0].log) == [FINAL]
    && s.nodes[1] == Node(ProcState(1, EMPTY), [FINAL])
    && s.senders == map[KEY := Announcing([1, 1], FINAL, 2)]
    && (0, KEY) in s.data && (0, FINAL) in s.seqs
  }

  /** A new message is launched, and both processes, which have not seen it, are asked. */
  lemma AskBoth(s: System, k: Key, p: ProcState, x: u32, q: ProcState, y: u32, m: SeqMessage) returns (t: System)
    requires |s.nodes| == 2 && k.sender < 2 && k !in s.senders
    requires k !in s.Pending(0) && k !in s.Pending(1)
    requires HandleData(s.nodes[0].proc, 0, k) == (p, AckMessage(k, x, 0))
    requires HandleData(s.nodes[1].proc, 1, k) == (q, AckMessage(k, y, 1))
    requires m.key == k && FinalStamp([x, y]) == (m.finalSeq, m.finalSeqProposer)
    ensures Follows(s, t) && (0, k) in t.data
    ensures t.nodes == [Node(p, s.nodes[0].log), Node(q, s.nodes[1].log)]
    ensures t.senders == s.senders[k := Announcing([x, y], m, 0)]
  {
    var s1 := AskFirst(s, k, p, x);
    t := Ask(s1, k);
    assert [x] + [y] == [x, y];
    Then(s, s1, t);
  }

  lemma AskFirst(s: System, k: Key, p: ProcState, x: u32) returns (t: System)
    requires |s.nodes| == 2 && k.sender < 2 && k !in s.senders && k !in s.Pending(0)
    requires HandleData(s.nodes[0].proc, 0, k) == (p, AckMessage(k, x, 0))
    ensures Follows(s, t) && (0, k) in t.data
    ensures t.nodes == [Node(p, s.nodes[0].log), s.nodes[1]]
    ensures t.senders == s.senders[k := Collecting([x])]
  {
    var s1 := Start(s, k);
    t := Ask(s1, k);
    assert [] + [x] == [x];
    Then(s, s1, t);
  }

  lemma BothAccept() returns (t: System)
    ensures Follows(Init(2), t) && (0, KEY) in t.data
    ensures t.nodes == [Node(ProcState(1, Lone(KEY, Proposal(1, 0))), []),
                        Node(ProcState(1, Lone(KEY, Proposal(1, 1))), [])]
    ensures t.senders == map[KEY := Announcing([1, 1], FINAL, 0)]
  {
    LoneData(0, 0, KEY);
    LoneData(0, 1, KEY);
    assert FinalStamp([1, 1]) == (1, 0);
    t := AskBoth(Init(2), KEY, ProcState(1, Lone(KEY, Proposal(1, 0))), 1,
                 ProcState(1, Lone(KEY, Proposal(1, 1))), 1, FINAL);
  }

  lemma BothDeliver() returns (t: System)
    ensures Follows(Init(2), t) && Pumped(t, 1)
  {
    LoneSeq(1, Proposal(1, 0), FINAL);
    LoneSeq(1, Proposal(1, 1), FINAL);
    var s := BothAccept();
    var s1 := Tell(s, KEY);
    t := Tell(s1, KEY);
    Then(Init(2), s, s1);
    Then(Init(2), s1, t);
    assert [] + [FINAL] == [FINAL];
    NoRepeatIsFirst([FINAL]);
  }

  lemma RepeatedFirst(log: seq<SeqMessage>, m: SeqMessage)
    requires HasKey(log, m.key)
    ensures FirstDeliveries(log + [m]) == FirstDeliveries(log)
  {
  }

  /** A late Data copy at process 0 is accepted with the next number. */
  lemma PumpData(s: System, c: u32) returns (t: System)
    requires Pumped(s, c) && 1 <= c < MAX
    ensures Follows(s, t) && t.senders == s.senders && (0, KEY) in t.data && (0, FINAL) in t.seqs
    ensures t.nodes == s.nodes[0 := Node(ProcState(c + 1, Lone(KEY, Proposal(c + 1, 0))), s.nodes[0].log)]
  {
    LoneData(c, 0, KEY);
    Nothing(s);
    OneMore(s, s, ReceiveData(0, KEY));
    t := Apply(s, ReceiveData(0, KEY));
  }

  /** Sequenced again, it is delivered again. */
  lemma PumpSeq(s: System, c: u32) returns (t: System)
    requires |s.nodes| == 2 && s.nodes[0].proc == ProcState(c, Lone(KEY, Proposal(c, 0)))
    requires 1 <= c && (0, KEY) in s.data && (0, FINAL) in s.seqs
    ensures Follows(s, t) && t.senders == s.senders && (0, KEY) in t.data && (0, FINAL) in t.seqs
    ensures t.nodes == s.nodes[0 := Node(ProcState(c, EMPTY), s.nodes[0].log + [FINAL])]
  {
    LoneSeq(c, Proposal(c, 0), FINAL);
    Nothing(s);
    OneMore(s, s, ReceiveSeq(0, FINAL));
    t := Apply(s, ReceiveSeq(0, FINAL));
  }

  lemma PumpRound(s: System, c: u32) returns (t: System)
    requires Pumped(s, c) && 1 <= c < MAX
    ensures Follows(s, t) && t.senders == s.senders && (0, KEY) in t.data && (0, FINAL) in t.seqs
    ensures t.nodes == [Node(ProcState(c + 1, EMPTY), s.nodes[0].log + [FINAL]), s.nodes[1]]
  {
    var s1 := PumpData(s, c);
    t := PumpSeq(s1, c + 1);
    Then(s, s1, t);
  }

  lemma PumpLog(log: seq<SeqMessage>)
    requires FirstDeliveries(log) == [FINAL]
    ensures FirstDeliveries(log + [FINAL]) == [FINAL]
  {
    assert FINAL in FirstDeliveries(log);
    RepeatedFirst(log, FINAL);
  }

  /** Which leaves the counter of process 0 one higher than before. */
  lemma Pump(s: System, c: u32) returns (t: System)
    requires Pumped(s, c) && 1 <= c < MAX
    ensures Follows(s, t) && Pumped(t, c + 1)
  {
    t := PumpRound(s, c);
    PumpLog(s.nodes[0].log);
  }

  lemma {:induction false} PumpTo(c: u32) returns (t: System)
    requires 1 <= c
    ensures Follows(Init(2), t) && Pumped(t, c)
    decreases c
  {
    if c == 1 {
      t := BothDeliver();
    } else {
      var s := PumpTo(c - 1);
      t := Pump(s, c - 1);
      Then(Init(2), s, t);
    }
  }

  /** The state of the two processes, up to repeated deliveries at process 0. */
  ghost predicate At(s: System, p: ProcState, first: seq<SeqMessage>, v: Node) {
    |s.nodes| == 2 && s.nodes[0].proc == p && FirstDeliveries(s.nodes[0].log) == first && s.nodes[1] == v
  }

  ghost predicate Has(s: System, k: Key, t: Sender) {
    k in s.senders && s.senders[k] == t
  }

  const OTHER_HELD := Entry(OTHER, 2, 1, false)
  const LATER_HELD := Entry(LATER, 3, 1, false)
  const BOTH := Queue(map[OTHER := Proposal(2, 1), LATER := Proposal(3, 1)], [OTHER_HELD, LATER_HELD])
  const ONE_LEFT := Queue(map[OTHER := Proposal(2, 1)], [OTHER_HELD, EntryOf(LATER_FINAL)])

  lemma InsertBehind(x: Entry, e: Entry)
    requires Less(x, e)
    ensures Insert([x], e) == [x, e]
  {
    assert !Contains([x], e);
    FilterAll(y => Less(y, e), [x]);
    FilterNone(y => Less(e, y), [x]);
  }

  lemma ErasePair(x: Entry, y: Entry, e: Entry)
    requires Equivalent(x, e) != Equivalent(y, e)
    ensures Erase([x, y], e) == [if Equivalent(x, e) then y else x]
  {
    assert [x, y] == [x] + [y];
    FilterConcat(z => !Equivalent(z, e), [x], [y]);
    if Equivalent(x, e) {
      FilterNone(z => !Equivalent(z, e), [x]);
      FilterAll(z => !Equivalent(z, e), [y]);
    } else {
      FilterAll(z => !Equivalent(z, e), [x]);
      FilterNone(z => !Equivalent(z, e), [y]);
    }
  }

  lemma SecondData()
    ensures HandleData(ProcState(2, Lone(OTHER, Proposal(2, 1))), 1, LATER) ==
            (ProcState(3, BOTH), AckMessage(LATER, 3, 1))
  {
    InsertBehind(OTHER_HELD, LATER_HELD);
  }

  lemma SeqHandled(c: u32, q: Queue, m: SeqMessage, s: seq<Entry>, q': Queue, out: seq<SeqMessage>)
    requires m.key in q.pending && Resequenced(q, m) == s && q'.pending == q.pending - {m.key}
    requires Retained(s) == q'.ordering && MessagesOf(Released(s)) == out
    ensures HandleSeq(ProcState(c, q), m) == (ProcState(ForwardSeqNum(c, m.finalSeq), q'), out)
  {
  }

  lemma FirstResequenced()
    ensures Resequenced(BOTH, LATER_FINAL) == [OTHER_HELD, EntryOf(LATER_FINAL)]
  {
    ErasePair(OTHER_HELD, LATER_HELD, LATER_HELD);
    InsertBehind(OTHER_HELD, EntryOf(LATER_FINAL));
  }

  lemma FirstSeq()
    ensures HandleSeq(ProcState(3, BOTH), LATER_FINAL) == (ProcState(3, ONE_LEFT), [])
  {
    var s := [OTHER_HELD, EntryOf(LATER_FINAL)];
    FirstResequenced();
    PrefixIsReleased(s, 0);
    assert BOTH.pending - {LATER} == ONE_LEFT.pending;
    assert s[..0] == [] && s[0..] == s;
    SeqHandled(3, BOTH, LATER_FINAL, s, ONE_LEFT, []);
  }

  lemma SecondResequenced()
    ensures Resequenced(ONE_LEFT, OTHER_FINAL) == [EntryOf(LATER_FINAL), EntryOf(OTHER_FINAL)]
  {
    ErasePair(OTHER_HELD, EntryOf(LATER_FINAL), OTHER_HELD);
    InsertBehind(EntryOf(LATER_FINAL), EntryOf(OTHER_FINAL));
  }

  lemma BothReleased(m: SeqMessage, n: SeqMessage)
    requires Less(EntryOf(m), EntryOf(n))
    ensures Retained([EntryOf(m), EntryOf(n)]) == []
    ensures MessagesOf(Released([EntryOf(m), EntryOf(n)])) == [m, n]
  {
    var s := [EntryOf(m), EntryOf(n)];
    PrefixIsReleased(s, 2);
    assert s[..2] == s && s[2..] == [];
  }

  lemma RemoveOnly(k: Key, p: Proposal)
    ensures map[k := p] - {k} == map[]
  {
  }

  lemma SecondSeq()
    ensures HandleSeq(ProcState(3, ONE_LEFT), OTHER_FINAL) == (ProcState(MAX, EMPTY), [LATER_FINAL, OTHER_FINAL])
  {
    var s, out := [EntryOf(LATER_FINAL), EntryOf(OTHER_FINAL)], [LATER_FINAL, OTHER_FINAL];
    SecondResequenced();
    BothReleased(LATER_FINAL, OTHER_FINAL);
    RemoveOnly(OTHER, Proposal(2, 1));
    SeqHandled(3, ONE_LEFT, OTHER_FINAL, s, EMPTY, out);
  }

  lemma DeliverNew(log: seq<SeqMessage>, m: SeqMessage)
    requires !HasKey(FirstDeliveries(log), m.key)
    ensures FirstDeliveries(log + [m]) == FirstDeliveries(log) + [m]
  {
  }

  /** Process 0 is told of a message that it holds alone and has not delivered. */
  lemma TellZero(s: System, k: Key, c: u32, p: Proposal, m: SeqMessage) returns (t: System)
    requires |s.nodes| == 2 && s.nodes[0].proc == ProcState(c, Lone(k, p))
    requires s.Final(k) && s.senders[k].next == 0 && s.senders[k].final == m && m.key == k
    requires !HasKey(FirstDeliveries(s.nodes[0].log), k)
    ensures Follows(s, t) && t.senders == s.senders[k := s.senders[k].(next := 1)]
    ensures At(t, ProcState(ForwardSeqNum(c, m.finalSeq), EMPTY), FirstDeliveries(s.nodes[0].log) + [m], s.nodes[1])
  {
    LoneSeq(c, p, m);
    t := Tell(s, k);
    DeliverNew(s.nodes[0].log, m);
  }

  lemma NotPrefix(a: seq<SeqMessage>, b: seq<SeqMessage>)
    requires |a| > 1 && |b| > 1 && a[1] != b[1]
    ensures !(a <= b) && !(b <= a)
  {
  }

  /** The first of two more messages gets the largest number there is. */
  lemma OtherNumbered() returns (t: System)
    ensures Follows(Init(2), t)
    ensures At(t, ProcState(MAX, Lone(OTHER, Proposal(MAX, 0))), [FINAL],
               Node(ProcState(2, Lone(OTHER, Proposal(2, 1))), [FINAL]))
    ensures Has(t, OTHER, Announcing([MAX, 2], OTHER_FINAL, 0)) && LATER !in t.senders
  {
    var s := PumpTo(MAX - 1);
    LoneData(MAX - 1, 0, OTHER);
    LoneData(1, 1, OTHER);
    assert FinalStamp([MAX, 2]) == (MAX, 0);
    t := AskBoth(s, OTHER, ProcState(MAX, Lone(OTHER, Proposal(MAX, 0))), MAX,
                 ProcState(2, Lone(OTHER, Proposal(2, 1))), 2, OTHER_FINAL);
    Then(Init(2), s, t);
  }

  /** Only process 0 is told, and delivers it. */
  lemma OtherDelivered() returns (t: System)
    ensures Follows(Init(2), t)
    ensures At(t, ProcState(MAX, EMPTY), [FINAL, OTHER_FINAL],
               Node(ProcState(2, Lone(OTHER, Proposal(2, 1))), [FINAL]))
    ensures Has(t, OTHER, Announcing([MAX, 2], OTHER_FINAL, 1)) && LATER !in t.senders
  {
    var s := OtherNumbered();
    t := TellZero(s, OTHER, MAX, Proposal(MAX, 0), OTHER_FINAL);
    Then(Init(2), s, t);
    assert [FINAL] + [OTHER_FINAL] == [FINAL, OTHER_FINAL];
  }

  /** For the second message the counter of process 0 wraps to 0. */
  lemma LaterNumbered() returns (t: System)
    ensures Follows(Init(2), t)
    ensures At(t, ProcState(0, Lone(LATER, Proposal(0, 0))), [FINAL, OTHER_FINAL], Node(ProcState(3, BOTH), [FINAL]))
    ensures Has(t, OTHER, Announcing([MAX, 2], OTHER_FINAL, 1)) && Has(t, LATER, Announcing([0, 3], LATER_FINAL, 0))
  {
    var s := OtherDelivered();
    LoneData(MAX, 0, LATER);
    SecondData();
    assert FinalStamp([0, 3]) == (3, 1);
    t := AskBoth(s, LATER, ProcState(0, Lone(LATER, Proposal(0, 0))), 0, ProcState(3, BOTH), 3, LATER_FINAL);
    Then(Init(2), s, t);
  }

  lemma LaterDelivered() returns (t: System)
    ensures Follows(Init(2), t)
    ensures At(t, ProcState(3, EMPTY), [FINAL, OTHER_FINAL, LATER_FINAL], Node(ProcState(3, BOTH), [FINAL]))
    ensures Has(t, OTHER, Announcing([MAX, 2], OTHER_FINAL, 1)) && Has(t, LATER, Announcing([0, 3], LATER_FINAL, 1))
  {
    var s := LaterNumbered();
    t := TellZero(s, LATER, 0, Proposal(0, 0), LATER_FINAL);
    Then(Init(2), s, t);
    assert [FINAL, OTHER_FINAL] + [LATER_FINAL] == [FINAL, OTHER_FINAL, LATER_FINAL];
  }

  /** Process 1, told of the second message first, has to hold it back. */
  lemma LaterHeld() returns (t: System)
    ensures Follows(Init(2), t)
    ensures At(t, ProcState(3, EMPTY), [FINAL, OTHER_FINAL, LATER_FINAL], Node(ProcState(3, ONE_LEFT), [FINAL]))
    ensures Has(t, OTHER, Announcing([MAX, 2], OTHER_FINAL, 1))
  {
    var s := LaterDelivered();
    FirstSeq();
    t := Tell(s, LATER);
    Then(Init(2), s, t);
    assert [FINAL] + [] == [FINAL];
  }

  lemma TellOther(s: System) returns (t: System)
    requires |s.nodes| == 2 && s.nodes[1] == Node(ProcState(3, ONE_LEFT), [FINAL])
    requires Has(s, OTHER, Announcing([MAX, 2], OTHER_FINAL, 1))
    ensures Follows(s, t) && |t.nodes| == 2 && t.nodes[0] == s.nodes[0]
    ensures t.nodes[1] == Node(ProcState(MAX, EMPTY), [FINAL, LATER_FINAL, OTHER_FINAL])
  {
    SecondSeq();
    t := Tell(s, OTHER);
    assert [FINAL] + [LATER_FINAL, OTHER_FINAL] == [FINAL, LATER_FINAL, OTHER_FINAL];
  }

  lemma OtherAtLast() returns (t: System)
    ensures Follows(Init(2), t)
    ensures At(t, ProcState(3, EMPTY), [FINAL, OTHER_FINAL, LATER_FINAL],
               Node(ProcState(MAX, EMPTY), [FINAL, LATER_FINAL, OTHER_FINAL]))
  {
    var s := LaterHeld();
    t := TellOther(s);
    Then(Init(2), s, t);
  }

  /** The processes disagree: 0 delivers OTHER before LATER, 1 the other way round. A step
      of the run wraps a counter; where none does, agreement is a theorem. */
  lemma WrapBreaksAgreement() returns (steps: seq<Step>, t: System)
    ensures Executes(Init(2), steps, t) && WrapsAlong(Init(2), steps)
    ensures FirstDeliveries(t.nodes[0].log) == [FINAL, OTHER_FINAL, LATER_FINAL]
    ensures FirstDeliveries(t.nodes[1].log) == [FINAL, LATER_FINAL, OTHER_FINAL]
    ensures !(FirstDeliveries(t.nodes[0].log) <= FirstDeliveries(t.nodes[1].log))
         && !(FirstDeliveries(t.nodes[1].log) <= FirstDeliveries(t.nodes[0].log))
  {
    t := OtherAtLast();
    steps :| Executes(Init(2), steps, t);
    NoRepeatIsFirst([FINAL, LATER_FINAL, OTHER_FINAL]);
    NotPrefix([FINAL, OTHER_FINAL, LATER_FINAL], [FINAL, LATER_FINAL, OTHER_FINAL]);
    assert WrapsAlong(Init(2), steps) by {
      if !WrapsAlong(Init(2), steps) {
        PrefixAgreement(2, steps, t, 0, 1);
      }
    }
  }
}
