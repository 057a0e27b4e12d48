/** What holds in every state that the system can reach over ordered links. Order and
    agreement need that no counter has wrapped, and say so through FReaches. */
module FifoTheorems {
  import opened Wire
  import opened HoldBack
  import opened TotalOrder
  import opened Safety
  import opened Invariant
  import opened Theorems
  import opened Integrity
  import opened FifoNetwork

  /** n processes reach f over ordered links in a run that wraps no counter. */
  ghost predicate FReaches(n: nat, steps: seq<FStep>, f: Fifo) {
    0 < n < 0x1_0000_0000 && FExecutes(FInit(n), steps, f) && !FWrapsAlong(FInit(n), steps)
  }

  /** The states that n processes reach over ordered links and that keep the invariant are
      exactly those reached without wrapping a counter; and with fewer than 2^32 pairs of
      a process and a launched message no run wraps one. */
  lemma FReachableGood(n: nat, steps: seq<FStep>, f: Fifo)
    requires 0 < n < 0x1_0000_0000 && FExecutes(FInit(n), steps, f)
    ensures FGood(f) <==> FReaches(n, steps, f)
    ensures Bounded(f) ==> FReaches(n, steps, f)
  {
    if Bounded(f) {
      FInitGood(n);
      FewMessagesNeverWrap(FInit(n), steps, f);
    }
    FInitGood(n);
    FRunKeeps(FInit(n), steps, f);
  }

  lemma FReachableSafe(n: nat, steps: seq<FStep>, f: Fifo)
    requires 0 < n < 0x1_0000_0000 && FExecutes(FInit(n), steps, f)
    ensures FSafe(f) && |f.sys.nodes| == n
  {
    FInitGood(n);
    FRunSafe(FInit(n), steps, f);
  }

  /** Nothing is delivered that the run did not launch, send to the process and have
      sequenced there. */
  lemma DeliveredWasLaunched(n: nat, steps: seq<FStep>, f: Fifo, q: nat, m: SeqMessage)
    requires 0 < n < 0x1_0000_0000 && FExecutes(FInit(n), steps, f) && q < n
    requires |f.sys.nodes| == n && m in f.sys.nodes[q].log
    ensures Local(Launch(m.key)) in steps && (q, m.key) in f.sys.data && (q, m) in f.sys.seqs
  {
    FLaunchedExactly(n, steps, f, m.key);
    var base := FifoRefinesAny(FInit(n), steps, f);
    DeliveredWasSent(n, base, f.sys, q, m);
  }

  // ----- exactly once

  /** No process delivers a message twice, however often its Data and Seq are repeated and
      whether or not a counter wraps: no Data copy on a link is of a message sequenced at
      its end. */
  lemma ExactlyOnce(n: nat, steps: seq<FStep>, f: Fifo, q: nat)
    requires 0 < n < 0x1_0000_0000 && FExecutes(FInit(n), steps, f) && q < n
    ensures |f.sys.nodes| == n && NoRepeat(f.sys.nodes[q].log)
    ensures forall p, k :: DataPacket(k) in f.On((p, q)) ==>
              (q, k) !in f.sys.seqAcks && !HasKey(f.sys.nodes[q].log, k)
  {
    FReachableSafe(n, steps, f);
    assert Once(f.sys.nodes[q]);
    forall p, k | DataPacket(k) in f.On((p, q)) ensures (q, k) !in f.sys.seqAcks && !HasKey(f.sys.nodes[q].log, k) {
      assert LinkOk(f.sys, (p, q), f.On((p, q)));
      assert PacketOk(f.sys, (p, q), DataPacket(k));
      assert NodeOk(f.sys, q);
      forall m | m in f.sys.nodes[q].log ensures m.key != k {
        assert Handled(f.sys, q, m);
      }
    }
  }

  lemma {:induction false} NoRepeatIsFirst(log: seq<SeqMessage>)
    requires NoRepeat(log)
    ensures FirstDeliveries(log) == log
  {
    if log != [] {
      var front, last := log[..|log| - 1], log[|log| - 1];
      NoRepeatIsFirst(front);
      assert log == front + [last];
      assert !HasKey(front, last.key);
    }
  }

  lemma GoodLogIsFirst(f: Fifo, q: nat)
    requires FGood(f) && q < |f.sys.nodes|
    ensures FirstDeliveries(f.sys.nodes[q].log) == f.sys.nodes[q].log && Increasing(f.sys.nodes[q].log)
  {
    assert Once(f.sys.nodes[q]) && LogOk(f.sys.nodes[q]);
    NoRepeatIsFirst(f.sys.nodes[q].log);
  }

  lemma GoodFullPrefix(f: Fifo, p: nat, q: nat)
    requires FGood(f) && p < |f.sys.nodes| && q < |f.sys.nodes|
    ensures f.sys.nodes[p].log <= f.sys.nodes[q].log || f.sys.nodes[q].log <= f.sys.nodes[p].log
  {
    GoodLogIsFirst(f, p);
    GoodLogIsFirst(f, q);
    GoodPrefixAgreement(f.sys, p, q);
  }

  /** The delivery logs of any two processes: one is a prefix of the other. */
  lemma FullPrefixAgreement(n: nat, steps: seq<FStep>, f: Fifo, p: nat, q: nat)
    requires FReaches(n, steps, f) && p < |f.sys.nodes| && q < |f.sys.nodes|
    ensures f.sys.nodes[p].log <= f.sys.nodes[q].log || f.sys.nodes[q].log <= f.sys.nodes[p].log
    ensures Increasing(f.sys.nodes[p].log)
  {
    FReachableGood(n, steps, f);
    GoodFullPrefix(f, p, q);
    GoodLogIsFirst(f, p);
  }

  // ----- numbers

  /** No process proposes twice for one message, so there are at most as many proposals
      as pairs of a process and a launched message; and until a counter wraps, none
      exceeds that. */
  lemma FifoNumbersBounded(n: nat, steps: seq<FStep>, f: Fifo)
    requires 0 < n < 0x1_0000_0000 && FExecutes(FInit(n), steps, f)
    ensures |f.sys.nodes| == n && OneAckEach(f.sys.acks)
    ensures |f.sys.acks| <= n * |f.sys.senders|
    ensures FReaches(n, steps, f) ==>
              forall q :: 0 <= q < n ==> f.sys.nodes[q].proc.counter <= n * |f.sys.senders|
  {
    FReachableSafe(n, steps, f);
    FReachableGood(n, steps, f);
    ProposalsCounted(f);
  }

  // ----- conservation and quiescence

  /** An accepted message is in exactly one place: pending, waiting with its final number,
      or delivered. */
  lemma ConservationExactly(n: nat, steps: seq<FStep>, f: Fifo, a: AckMessage)
    requires 0 < n < 0x1_0000_0000 && FExecutes(FInit(n), steps, f) && a in f.sys.acks
    ensures var s, q, k := f.sys, a.proposer as nat, a.key;
            && q < |s.nodes|
            && var pending := k in s.Pending(q);
               var waiting := s.Final(k) && EntryOf(s.senders[k].final) in s.Held(q);
               var delivered := s.Final(k) && s.senders[k].final in s.nodes[q].log;
               && (pending || waiting || delivered)
               && !(pending && waiting) && !(pending && delivered) && !(waiting && delivered)
  {
    FReachableSafe(n, steps, f);
    var s, q, k := f.sys, a.proposer as nat, a.key;
    assert AckOk(s, a);
    assert (q, k) in s.seqAcks ==> SeqAckOk(s, q, k);
    assert NodeOk(s, q) && Once(s.nodes[q]);
    if s.Final(k) {
      var m := s.senders[k].final;
      assert SenderOk(s, k);
      assert EntryOf(m) in s.Held(q) ==> Handled(s, q, MessageOf(EntryOf(m)));
      assert m in s.nodes[q].log ==> Handled(s, q, m);
    }
  }

  /** Process q has been told the final number of every launched message. */
  ghost predicate AllTold(s: System, q: nat) {
    forall k :: k in s.senders ==> (q, k) in s.seqAcks
  }

  lemma ToldQueueEmpty(f: Fifo, q: nat)
    requires FSafe(f) && q < |f.sys.nodes| && AllTold(f.sys, q)
    ensures f.sys.nodes[q].proc.queue == EMPTY
  {
    var s := f.sys;
    assert NodeOk(s, q) && QueueOk(s.nodes[q]);
    forall k ensures k !in s.Pending(q) {
      assert k in s.Pending(q) ==> AckOk(s, AckMessage(k, s.Pending(q)[k].number, q));
    }
    assert s.Pending(q) == map[];
    assert forall e :: e in s.Held(q) ==> e.deliverable;
  }

  lemma ToldLogComplete(f: Fifo, q: nat)
    requires FSafe(f) && q < |f.sys.nodes| && AllTold(f.sys, q)
    ensures forall m :: m in f.sys.nodes[q].log <==> f.sys.Final(m.key) && f.sys.senders[m.key].final == m
    ensures forall k :: k in f.sys.senders ==> f.sys.Final(k) && f.sys.senders[k].final in f.sys.nodes[q].log
    ensures |f.sys.nodes[q].log| == |f.sys.senders|
  {
    var s := f.sys;
    ToldQueueEmpty(f, q);
    forall k | k in s.senders ensures s.Final(k) && s.senders[k].final in s.nodes[q].log {
      assert SeqAckOk(s, q, k);
    }
    forall m ensures m in s.nodes[q].log <==> s.Final(m.key) && s.senders[m.key].final == m {
      assert NodeOk(s, q);
      assert m in s.nodes[q].log ==> Handled(s, q, m);
    }
    assert Once(s.nodes[q]);
    forall k ensures k in s.senders.Keys <==> exists m :: m in s.nodes[q].log && m.key == k {
      if k in s.senders {
        assert SenderOk(s, k);
        assert s.senders[k].final in s.nodes[q].log && s.senders[k].final.key == k;
      }
    }
    KeysOfLog(s.nodes[q].log, s.senders.Keys);
  }

  lemma {:induction false} KeysOfLog(log: seq<SeqMessage>, keys: set<Key>)
    requires NoRepeat(log)
    requires forall k :: k in keys <==> exists m :: m in log && m.key == k
    ensures |log| == |keys|
  {
    if log == [] {
      assert keys == {};
    } else {
      var front, last := log[..|log| - 1], log[|log| - 1];
      assert log == front + [last];
      assert last in log && last.key in keys;
      forall k ensures k in keys - {last.key} <==> exists m :: m in front && m.key == k {
        if m :| m in front && m.key == k {
          var i :| 0 <= i < |front| && front[i] == m;
          assert log[i] == m && m in log;
        }
      }
      KeysOfLog(front, keys - {last.key});
    }
  }

  /** Who has been told everything has delivered exactly what the run launched. */
  lemma ToldIsLaunched(n: nat, steps: seq<FStep>, f: Fifo, q: nat, k: Key)
    requires 0 < n < 0x1_0000_0000 && FExecutes(FInit(n), steps, f)
    requires FSafe(f) && q < |f.sys.nodes| && AllTold(f.sys, q)
    ensures HasKey(f.sys.nodes[q].log, k) <==> Local(Launch(k)) in steps
  {
    FLaunchedExactly(n, steps, f, k);
    ToldLogComplete(f, q);
    if k in f.sys.senders {
      assert SenderOk(f.sys, k);
    }
  }

  /** Once q has been told of every launched message, its queue is empty and its log is
      exactly the launched messages, each once; and, if no counter has wrapped, in the
      order of final number, sender and message id. */
  lemma Quiescence(n: nat, steps: seq<FStep>, f: Fifo, q: nat)
    requires 0 < n < 0x1_0000_0000 && FExecutes(FInit(n), steps, f) && q < n && AllTold(f.sys, q)
    ensures |f.sys.nodes| == n && f.sys.nodes[q].proc.queue == EMPTY && NoRepeat(f.sys.nodes[q].log)
    ensures forall m :: m in f.sys.nodes[q].log <==> f.sys.Final(m.key) && f.sys.senders[m.key].final == m
    ensures forall k :: k in f.sys.senders ==> f.sys.Final(k) && f.sys.senders[k].final in f.sys.nodes[q].log
    ensures |f.sys.nodes[q].log| == |f.sys.senders|
    ensures forall k :: HasKey(f.sys.nodes[q].log, k) <==> Local(Launch(k)) in steps
    ensures FReaches(n, steps, f) ==> Increasing(f.sys.nodes[q].log)
  {
    FReachableSafe(n, steps, f);
    ToldQueueEmpty(f, q);
    ToldLogComplete(f, q);
    assert Once(f.sys.nodes[q]);
    forall k ensures HasKey(f.sys.nodes[q].log, k) <==> Local(Launch(k)) in steps {
      ToldIsLaunched(n, steps, f, q, k);
    }
    FReachableGood(n, steps, f);
    if FReaches(n, steps, f) {
      GoodLogIsFirst(f, q);
    }
  }
}
