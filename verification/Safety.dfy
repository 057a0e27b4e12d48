/** What every run over the arbitrary network keeps, whether or not a counter wraps: nothing
    accepted is lost, and every delivery carries the final number of its message. */
module Safety {
  import opened Wire
  import opened Ordering
  import opened HoldBack
  import opened Processes
  import opened Senders
  import opened TotalOrder

  // ----- what no step takes back

  ghost predicate Extends(s: System, t: System) {
    && |t.nodes| == |s.nodes| && s.acks <= t.acks && s.seqAcks <= t.seqAcks
    && s.data <= t.data && s.seqs <= t.seqs && s.senders.Keys <= t.senders.Keys
    && (forall k :: s.Final(k) ==> t.Final(k) && t.senders[k].final == s.senders[k].final)
    && (forall q :: 0 <= q < |s.nodes| ==> s.nodes[q].log <= t.nodes[q].log)
  }

  lemma StepExtends(s: System, step: Step)
    requires Sized(s) && Enabled(s, step)
    ensures Extends(s, Apply(s, step))
  {
  }

  lemma {:induction false} RunExtends(s: System, steps: seq<Step>, t: System)
    requires Sized(s) && Executes(s, steps, t)
    ensures Extends(s, t)
    decreases |steps|
  {
    if steps != [] {
      var mid := Apply(s, steps[0]);
      StepExtends(s, steps[0]);
      RunExtends(mid, steps[1..], t);
    }
  }

  // ----- senders

  /** A sender has recorded Acks of its message that were really sent, one of each process
      it has asked; its final number is their maximum; whoever it has told has confirmed. */
  ghost predicate SenderOk(s: System, k: Key)
    requires Sized(s) && k in s.senders
  {
    var t := s.senders[k];
    && k.sender < |s.nodes|
    && |t.acks| <= |s.nodes|
    && (forall i :: 0 <= i < |t.acks| ==> AckMessage(k, t.acks[i], i) in s.acks)
    && (t.Collecting? ==> |t.acks| < |s.nodes|)
    && (t.Announcing? ==>
          && |t.acks| == |s.nodes| && t.final.key == k && t.next <= |s.nodes|
          && IsFinalStamp(t.acks, t.final.finalSeq, t.final.finalSeqProposer)
          && forall q :: 0 <= q < t.next ==> (q, k) in s.seqAcks)
  }

  ghost predicate SendersOk(s: System)
    requires Sized(s)
  {
    forall k :: k in s.senders ==> SenderOk(s, k)
  }

  lemma SameSender(s: System, t: System, k: Key)
    requires Sized(s) && |t.nodes| == |s.nodes| && s.acks <= t.acks && s.seqAcks <= t.seqAcks
    requires k in s.senders && k in t.senders && t.senders[k] == s.senders[k] && SenderOk(s, k)
    ensures SenderOk(t, k)
  {
  }

  /** The step that fixes the final number, when the proposal is the last one. */
  lemma AckKeepsSender(s: System, a: AckMessage)
    requires Sized(s) && SendersOk(s) && Enabled(s, ReceiveAck(a))
    ensures SenderOk(Apply(s, ReceiveAck(a)), a.key)
  {
    assert SenderOk(s, a.key);
    assert AckMessage(a.key, a.proposedSeq, a.proposer) == a;
  }

  lemma StepKeepsSenders(s: System, step: Step)
    requires Sized(s) && SendersOk(s) && Enabled(s, step)
    ensures SendersOk(Apply(s, step))
  {
    var t := Apply(s, step);
    forall k | k in t.senders ensures SenderOk(t, k) {
      if k in s.senders && t.senders[k] == s.senders[k] {
        SameSender(s, t, k);
      } else if step.ReceiveAck? {
        AckKeepsSender(s, step.a);
      } else if step.ReceiveSeqAck? {
        assert SenderOk(s, k);
      }
    }
  }

  // ----- the invariant

  /** A proposal is stored at its proposer, unchanged, until the proposer has handled the
      message's Seq. */
  ghost predicate AckOk(s: System, a: AckMessage) {
    && a.key in s.senders && a.proposer < |s.nodes|
    && ((a.proposer, a.key) !in s.seqAcks ==>
          a.key in s.Pending(a.proposer) && s.Pending(a.proposer)[a.key] == Proposal(a.proposedSeq, a.proposer))
  }

  ghost predicate SeqOk(s: System, q: nat, m: SeqMessage) {
    q < |s.nodes| && s.Final(m.key) && s.senders[m.key].final == m
  }

  /** A message whose Seq q has handled is delivered there or waits there, sequenced. */
  ghost predicate SeqAckOk(s: System, q: nat, k: Key) {
    && q < |s.nodes| && s.Final(k)
    && (s.senders[k].final in s.nodes[q].log || EntryOf(s.senders[k].final) in s.Held(q))
  }

  ghost predicate Handled(s: System, q: nat, m: SeqMessage) {
    s.Final(m.key) && s.senders[m.key].final == m && (q, m.key) in s.seqAcks
  }

  ghost predicate NodeOk(s: System, q: nat)
    requires Sized(s) && q < |s.nodes|
  {
    && (forall k :: k in s.Pending(q) ==>
          s.Pending(q)[k].proposer == q && AckMessage(k, s.Pending(q)[k].number, q) in s.acks)
    && (forall e :: e in s.Held(q) && e.deliverable ==> Handled(s, q, MessageOf(e)))
    && (forall m :: m in s.nodes[q].log ==> Handled(s, q, m))
  }

  ghost predicate QueueOk(v: Node) {
    ValidQueue(v.proc.queue)
  }

  ghost predicate Safe(s: System) {
    && Sized(s)
    && SendersOk(s)
    && (forall q, k :: (q, k) in s.data ==> q < |s.nodes| && k in s.senders)
    && (forall a :: a in s.acks ==> AckOk(s, a))
    && (forall q, m :: (q, m) in s.seqs ==> SeqOk(s, q, m))
    && (forall q, k :: (q, k) in s.seqAcks ==> SeqAckOk(s, q, k))
    && (forall q :: 0 <= q < |s.nodes| ==> NodeOk(s, q))
    && (forall q {:trigger QueueOk(s.nodes[q])} :: 0 <= q < |s.nodes| ==> QueueOk(s.nodes[q]))
  }

  lemma InitSafe(n: nat)
    requires 0 < n < 0x1_0000_0000
    ensures Safe(Init(n))
  {
  }

  /** A process the step does not touch stays as it was. */
  lemma UntouchedNode(s: System, t: System, q: nat)
    requires Sized(s) && Extends(s, t) && q < |s.nodes| && NodeOk(s, q) && t.nodes[q] == s.nodes[q]
    ensures NodeOk(t, q)
  {
    assert t.Pending(q) == s.Pending(q) && t.Held(q) == s.Held(q);
  }

  // ----- steps of senders

  predicate IsSenderStep(step: Step) {
    !step.ReceiveData? && !step.ReceiveSeq?
  }

  lemma SenderStepDatagrams(s: System, step: Step)
    requires Safe(s) && Enabled(s, step) && IsSenderStep(step)
    ensures var t := Apply(s, step);
            && (forall q, k :: (q, k) in t.data ==> q < |t.nodes| && k in t.senders)
            && (forall q, m :: (q, m) in t.seqs ==> SeqOk(t, q, m))
  {
    var t := Apply(s, step);
    StepExtends(s, step);
    forall q, m | (q, m) in t.seqs ensures SeqOk(t, q, m) {
      if (q, m) in s.seqs {
        assert SeqOk(s, q, m);
      } else {
        assert SenderOk(s, step.k);
      }
    }
  }

  lemma SenderStepSafe(s: System, step: Step)
    requires Safe(s) && Enabled(s, step) && IsSenderStep(step)
    ensures Safe(Apply(s, step))
  {
    var t := Apply(s, step);
    StepExtends(s, step);
    StepKeepsSenders(s, step);
    SenderStepDatagrams(s, step);
    forall q | 0 <= q < |t.nodes| ensures NodeOk(t, q) && QueueOk(t.nodes[q]) {
      UntouchedNode(s, t, q);
      assert QueueOk(s.nodes[q]);
    }
    forall a | a in t.acks ensures AckOk(t, a) {
      assert AckOk(s, a);
    }
    forall q, k | (q, k) in t.seqAcks ensures SeqAckOk(t, q, k) {
      assert SeqAckOk(s, q, k);
    }
  }

  // ----- a Data message received

  /** A step that only concerns process q. */
  lemma NodeStepSafe(s: System, t: System, q: nat)
    requires Safe(s) && Extends(s, t) && q < |s.nodes|
    requires t.senders == s.senders && t.data == s.data && t.seqs == s.seqs
    requires forall r :: 0 <= r < |s.nodes| && r != q ==> t.nodes[r] == s.nodes[r]
    requires NodeOk(t, q) && QueueOk(t.nodes[q])
    requires forall a :: a in t.acks ==> AckOk(t, a)
    requires forall r, j :: (r, j) in t.seqAcks ==> SeqAckOk(t, r, j)
    ensures Safe(t)
  {
    forall r | 0 <= r < |t.nodes| ensures NodeOk(t, r) && QueueOk(t.nodes[r]) {
      if r != q {
        UntouchedNode(s, t, r);
        assert QueueOk(s.nodes[r]);
      }
    }
    forall j | j in t.senders ensures SenderOk(t, j) {
      SameSender(s, t, j);
    }
    forall r, m | (r, m) in t.seqs ensures SeqOk(t, r, m) {
      assert SeqOk(s, r, m);
    }
  }

  /** A process accepts k, which is not pending there, with proposal p. */
  ghost predicate Admits(v: Node, v': Node, k: Key, p: Proposal) {
    && k !in v.proc.queue.pending
    && v'.log == v.log && v'.proc.counter == p.number
    && v'.proc.queue.pending == v.proc.queue.pending[k := p]
    && (forall e :: e in v'.proc.queue.ordering <==> e in v.proc.queue.ordering || e == Unsequenced(k, p))
  }

  ghost predicate Accepts(s: System, t: System, q: nat, k: Key, c: u32) {
    && Sized(s) && q < |s.nodes| == |t.nodes| && k in s.senders
    && Admits(s.nodes[q], t.nodes[q], k, Proposal(c, q))
    && t == s.(nodes := s.nodes[q := t.nodes[q]], acks := s.acks + {AckMessage(k, c, q)})
  }

  lemma HandleDataAccepts(s: System, q: nat, k: Key)
    requires Sized(s) && Enabled(s, ReceiveData(q, k)) && k in s.senders && k !in s.Pending(q)
    requires QueueOk(s.nodes[q])
    ensures var t := Apply(s, ReceiveData(q, k));
            && Accepts(s, t, q, k, NextSeqNum(s.nodes[q].proc.counter))
            && QueueOk(t.nodes[q])
  {
    var t := Apply(s, ReceiveData(q, k));
    EnqueueKeepsValid(s.nodes[q].proc.queue, AckMessage(k, NextSeqNum(s.nodes[q].proc.counter), q));
    assert t.nodes == s.nodes[q := t.nodes[q]];
  }

  lemma AcceptsNode(s: System, t: System, q: nat, k: Key, c: u32)
    requires Accepts(s, t, q, k, c) && NodeOk(s, q) && Extends(s, t)
    ensures NodeOk(t, q)
  {
    forall e | e in t.Held(q) && e.deliverable ensures Handled(t, q, MessageOf(e)) {
      assert Handled(s, q, MessageOf(e));
    }
    forall j | j in t.Pending(q)
      ensures t.Pending(q)[j].proposer == q && AckMessage(j, t.Pending(q)[j].number, q) in t.acks
    {
      assert j != k ==> j in s.Pending(q) && t.Pending(q)[j] == s.Pending(q)[j];
    }
  }

  lemma AcceptsAcks(s: System, t: System, q: nat, k: Key, c: u32)
    requires Safe(s) && Accepts(s, t, q, k, c)
    ensures forall a :: a in t.acks ==> AckOk(t, a)
  {
    forall a | a in t.acks ensures AckOk(t, a) {
      assert a in s.acks ==> AckOk(s, a);
    }
  }

  lemma AcceptsSeqAcks(s: System, t: System, q: nat, k: Key, c: u32)
    requires Safe(s) && Accepts(s, t, q, k, c)
    ensures forall r, j :: (r, j) in t.seqAcks ==> SeqAckOk(t, r, j)
  {
    forall r, j | (r, j) in t.seqAcks ensures SeqAckOk(t, r, j) {
      assert SeqAckOk(s, r, j);
    }
  }

  lemma AcceptsSafe(s: System, t: System, q: nat, k: Key, c: u32)
    requires Safe(s) && Accepts(s, t, q, k, c) && Extends(s, t) && QueueOk(t.nodes[q])
    ensures Safe(t)
  {
    assert NodeOk(s, q);
    AcceptsNode(s, t, q, k, c);
    AcceptsAcks(s, t, q, k, c);
    AcceptsSeqAcks(s, t, q, k, c);
    NodeStepSafe(s, t, q);
  }

  /** Data for a message still pending changes nothing: its Ack was sent before. */
  lemma RepeatedData(s: System, q: nat, k: Key)
    requires Sized(s) && Enabled(s, ReceiveData(q, k)) && k in s.Pending(q) && NodeOk(s, q)
    ensures Apply(s, ReceiveData(q, k)) == s
  {
    assert AckMessage(k, s.Pending(q)[k].number, q) in s.acks;
  }

  lemma ReceiveDataSafe(s: System, q: nat, k: Key)
    requires Safe(s) && Enabled(s, ReceiveData(q, k))
    ensures Safe(Apply(s, ReceiveData(q, k)))
  {
    assert NodeOk(s, q) && QueueOk(s.nodes[q]);
    if k in s.Pending(q) {
      RepeatedData(s, q, k);
    } else {
      HandleDataAccepts(s, q, k);
      StepExtends(s, ReceiveData(q, k));
      AcceptsSafe(s, Apply(s, ReceiveData(q, k)), q, k, NextSeqNum(s.nodes[q].proc.counter));
    }
  }

  // ----- a Seq message received

  /** A process handles m, whose key is pending there, and delivers out. */
  ghost predicate Scans(v: Node, v': Node, m: SeqMessage, out: seq<SeqMessage>) {
    && m.key in v.proc.queue.pending
    && v'.log == v.log + out
    && v'.proc.counter == ForwardSeqNum(v.proc.counter, m.finalSeq)
    && v'.proc.queue.pending == v.proc.queue.pending - {m.key}
    && Increasing(out)
    && (forall x :: x in out ==> x == m || EntryOf(x) in v.proc.queue.ordering)
    && (forall e :: e in v'.proc.queue.ordering ==> e == EntryOf(m) || e in v.proc.queue.ordering)
    && (forall x, e :: x in out && e in v'.proc.queue.ordering ==> Less(EntryOf(x), e))
    && (forall x :: x == m || EntryOf(x) in v.proc.queue.ordering ==> x in out || EntryOf(x) in v'.proc.queue.ordering)
  }

  ghost predicate Sequences(s: System, t: System, q: nat, m: SeqMessage, out: seq<SeqMessage>) {
    && Sized(s) && q < |s.nodes| == |t.nodes| && SeqOk(s, q, m)
    && Scans(s.nodes[q], t.nodes[q], m, out)
    && t == s.(nodes := s.nodes[q := t.nodes[q]], seqAcks := s.seqAcks + {(q, m.key)})
  }

  /** The process holds no other final number of m's message. */
  ghost predicate OneFinalHeld(v: Node, m: SeqMessage) {
    forall e :: e in v.proc.queue.ordering && e.deliverable && e.key == m.key ==> e == EntryOf(m)
  }

  /** The set that the scan goes over: all that q holds, with m's entry sequenced. */
  lemma ScannedSet(v: Node, m: SeqMessage)
    requires QueueOk(v) && m.key in v.proc.queue.pending && OneFinalHeld(v, m)
    ensures var entry := Unsequenced(m.key, v.proc.queue.pending[m.key]);
            forall e :: e in Resequenced(v.proc.queue, m) <==>
                        e == EntryOf(m) || (e in v.proc.queue.ordering && e != entry)
  {
  }

  lemma HandleSeqScans(v: Node, m: SeqMessage)
    requires QueueOk(v) && m.key in v.proc.queue.pending && OneFinalHeld(v, m)
    ensures var (p, out) := HandleSeq(v.proc, m);
            Scans(v, Node(p, v.log + out), m, out) && QueueOk(Node(p, v.log + out))
  {
    var queue := v.proc.queue;
    var (queue', out) := Sequence(queue, m);
    ScannedSet(v, m);
    SequenceKeepsValid(queue, m);
    ScanDeliversExactlyUnblocked(queue, m);
    forall x | x == m || EntryOf(x) in queue.ordering
      ensures x in out || EntryOf(x) in queue'.ordering
    {
      OutMembers(Released(Resequenced(queue, m)), x);
    }
  }

  lemma OneFinal(s: System, q: nat, m: SeqMessage)
    requires Safe(s) && Enabled(s, ReceiveSeq(q, m))
    ensures OneFinalHeld(s.nodes[q], m)
  {
    assert SeqOk(s, q, m) && NodeOk(s, q);
    forall e | e in s.Held(q) && e.deliverable && e.key == m.key ensures e == EntryOf(m) {
      assert Handled(s, q, MessageOf(e));
    }
  }

  lemma ReceiveSeqSequences(s: System, q: nat, m: SeqMessage)
    requires Safe(s) && Enabled(s, ReceiveSeq(q, m)) && m.key in s.Pending(q)
    ensures var t := Apply(s, ReceiveSeq(q, m));
            Sequences(s, t, q, m, HandleSeq(s.nodes[q].proc, m).1) && QueueOk(t.nodes[q])
  {
    var t := Apply(s, ReceiveSeq(q, m));
    assert SeqOk(s, q, m) && QueueOk(s.nodes[q]);
    OneFinal(s, q, m);
    HandleSeqScans(s.nodes[q], m);
    assert t.nodes == s.nodes[q := t.nodes[q]];
  }

  /** Everything in q's log or held sequenced at q afterwards is a handled message. */
  lemma SequencesHandled(s: System, t: System, q: nat, m: SeqMessage, out: seq<SeqMessage>, x: SeqMessage)
    requires Sequences(s, t, q, m, out) && NodeOk(s, q) && Extends(s, t)
    requires x in t.nodes[q].log || EntryOf(x) in t.Held(q)
    ensures Handled(t, q, x)
  {
    assert x in s.nodes[q].log ==> Handled(s, q, x);
    assert EntryOf(x) in s.Held(q) ==> Handled(s, q, MessageOf(EntryOf(x)));
  }

  lemma SequencesNode(s: System, t: System, q: nat, m: SeqMessage, out: seq<SeqMessage>)
    requires Sequences(s, t, q, m, out) && NodeOk(s, q) && Extends(s, t)
    ensures NodeOk(t, q)
  {
    forall e | e in t.Held(q) && e.deliverable ensures Handled(t, q, MessageOf(e)) {
      assert EntryOf(MessageOf(e)) == e;
      SequencesHandled(s, t, q, m, out, MessageOf(e));
    }
    forall x | x in t.nodes[q].log ensures Handled(t, q, x) {
      SequencesHandled(s, t, q, m, out, x);
    }
    forall j | j in t.Pending(q)
      ensures t.Pending(q)[j].proposer == q && AckMessage(j, t.Pending(q)[j].number, q) in t.acks
    {
      assert j in s.Pending(q) && t.Pending(q)[j] == s.Pending(q)[j];
    }
  }

  /** Whatever q held sequenced, and m, is afterwards delivered or still held. */
  lemma SequencesSeqAcks(s: System, t: System, q: nat, m: SeqMessage, out: seq<SeqMessage>)
    requires Safe(s) && Sequences(s, t, q, m, out)
    ensures forall r, j :: (r, j) in t.seqAcks ==> SeqAckOk(t, r, j)
  {
    forall r, j | (r, j) in t.seqAcks ensures SeqAckOk(t, r, j) {
      assert (r, j) in s.seqAcks ==> SeqAckOk(s, r, j);
    }
  }

  lemma SequencesAcks(s: System, t: System, q: nat, m: SeqMessage, out: seq<SeqMessage>)
    requires Safe(s) && Sequences(s, t, q, m, out)
    ensures forall a :: a in t.acks ==> AckOk(t, a)
  {
    forall a | a in t.acks ensures AckOk(t, a) {
      assert AckOk(s, a);
    }
  }

  lemma SequencesSafe(s: System, t: System, q: nat, m: SeqMessage, out: seq<SeqMessage>)
    requires Safe(s) && Sequences(s, t, q, m, out) && Extends(s, t) && QueueOk(t.nodes[q])
    ensures Safe(t)
  {
    assert NodeOk(s, q);
    SequencesNode(s, t, q, m, out);
    SequencesAcks(s, t, q, m, out);
    SequencesSeqAcks(s, t, q, m, out);
    NodeStepSafe(s, t, q);
  }

  /** A final number is a proposal someone really made. */
  lemma FinalIsProposed(s: System, k: Key)
    requires Safe(s) && s.Final(k)
    ensures var f := s.senders[k].final;
            f.key == k && f.finalSeqProposer < |s.nodes| && AckMessage(k, f.finalSeq, f.finalSeqProposer) in s.acks
  {
    assert SenderOk(s, k);
  }

  /** Until q has handled the Seq of a finalised message, q holds its own recorded
      proposal, which the final number dominates. */
  lemma FinalDominatesPending(s: System, q: nat, k: Key)
    requires Safe(s) && s.Final(k) && q < |s.nodes| && (q, k) !in s.seqAcks
    ensures q < |s.senders[k].acks|
    ensures k in s.Pending(q) && s.Pending(q)[k] == Proposal(s.senders[k].acks[q], q)
    ensures s.Pending(q)[k].number <= s.senders[k].final.finalSeq
  {
    assert SenderOk(s, k);
    assert AckOk(s, AckMessage(k, s.senders[k].acks[q], q));
  }

  /** A Seq for a key that is not pending only forwards the counter. */
  ghost predicate Replays(s: System, t: System, q: nat, m: SeqMessage) {
    && q < |s.nodes| == |t.nodes| && SeqOk(s, q, m) && (q, m.key) in s.seqAcks
    && t.nodes[q].log == s.nodes[q].log && t.nodes[q].proc.queue == s.nodes[q].proc.queue
    && t.nodes[q].proc.counter == ForwardSeqNum(s.nodes[q].proc.counter, m.finalSeq)
    && t == s.(nodes := s.nodes[q := t.nodes[q]])
  }

  lemma ReceiveSeqReplays(s: System, q: nat, m: SeqMessage)
    requires Safe(s) && Enabled(s, ReceiveSeq(q, m)) && m.key !in s.Pending(q)
    ensures Replays(s, Apply(s, ReceiveSeq(q, m)), q, m)
  {
    var t := Apply(s, ReceiveSeq(q, m));
    assert SeqOk(s, q, m);
    assert (q, m.key) in s.seqAcks by {
      if (q, m.key) !in s.seqAcks {
        FinalDominatesPending(s, q, m.key);
      }
    }
    assert s.nodes[q].log + [] == s.nodes[q].log;
    assert t.nodes == s.nodes[q := t.nodes[q]];
    assert t.seqAcks == s.seqAcks;
  }

  lemma ReplaysNode(s: System, t: System, q: nat, m: SeqMessage)
    requires Sized(s) && Replays(s, t, q, m) && Extends(s, t) && NodeOk(s, q) && QueueOk(s.nodes[q])
    ensures NodeOk(t, q) && QueueOk(t.nodes[q])
  {
    assert t.Pending(q) == s.Pending(q) && t.Held(q) == s.Held(q);
  }

  lemma ReplaysSafe(s: System, t: System, q: nat, m: SeqMessage)
    requires Safe(s) && Replays(s, t, q, m) && Extends(s, t)
    ensures Safe(t)
  {
    assert NodeOk(s, q) && QueueOk(s.nodes[q]);
    ReplaysNode(s, t, q, m);
    forall a | a in t.acks ensures AckOk(t, a) {
      assert AckOk(s, a);
    }
    forall r, j | (r, j) in t.seqAcks ensures SeqAckOk(t, r, j) {
      assert SeqAckOk(s, r, j);
    }
    NodeStepSafe(s, t, q);
  }

  lemma ReceiveSeqSafe(s: System, q: nat, m: SeqMessage)
    requires Safe(s) && Enabled(s, ReceiveSeq(q, m))
    ensures Safe(Apply(s, ReceiveSeq(q, m)))
  {
    var t := Apply(s, ReceiveSeq(q, m));
    StepExtends(s, ReceiveSeq(q, m));
    if m.key in s.Pending(q) {
      ReceiveSeqSequences(s, q, m);
      SequencesSafe(s, t, q, m, HandleSeq(s.nodes[q].proc, m).1);
    } else {
      ReceiveSeqReplays(s, q, m);
      ReplaysSafe(s, t, q, m);
    }
  }

  // ----- whole runs

  lemma StepSafe(s: System, step: Step)
    requires Safe(s) && Enabled(s, step)
    ensures Safe(Apply(s, step))
  {
    match step
    case ReceiveData(q, k) => ReceiveDataSafe(s, q, k);
    case ReceiveSeq(q, m) => ReceiveSeqSafe(s, q, m);
    case _ => SenderStepSafe(s, step);
  }

  lemma {:induction false} RunSafe(s: System, steps: seq<Step>, t: System)
    requires Safe(s) && Executes(s, steps, t)
    ensures Safe(t)
    decreases |steps|
  {
    if steps != [] {
      StepSafe(s, steps[0]);
      RunSafe(Apply(s, steps[0]), steps[1..], t);
    }
  }

  /** Every run keeps these facts: senders have recorded proposals really sent, and their
      final number is the largest; a proposal is stored until its message is sequenced; a
      sequenced message is delivered or held; deliveries are of final numbers; queues are
      valid. */
  lemma ReachableSafe(n: nat, steps: seq<Step>, s: System)
    requires 0 < n < 0x1_0000_0000 && Executes(Init(n), steps, s)
    ensures Safe(s) && |s.nodes| == n
  {
    InitSafe(n);
    RunSafe(Init(n), steps, s);
  }
}
