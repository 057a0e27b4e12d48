/** What holds in every state that the system can reach over the arbitrary network. Order,
    numbers and agreement need that no counter has wrapped, and say so through Reaches;
    everything else holds after every run. */
module Theorems {
  import opened Wire
  import opened Ordering
  import opened HoldBack
  import opened Processes
  import opened Senders
  import opened TotalOrder
  import opened Safety
  import opened Invariant

  // ----- total order

  lemma {:induction false} PrefixOfSorted(a: seq<SeqMessage>, b: seq<SeqMessage>)
    requires Increasing(a) && Increasing(b)
    requires forall x :: x in a ==> x in b
    requires forall x, y :: x in a && y in b && y !in a ==> Before(x, y)
    ensures a <= b
  {
    if a != [] {
      var front, last := a[..|a| - 1], a[|a| - 1];
      assert a == front + [last];
      assert forall x :: x in front ==> Before(x, last);
      assert forall x :: x in a <==> x in front || x == last;
      PrefixOfSorted(front, b);
      assert last in a && last in b;
      NextFollows(front, last, b);
    }
  }

  lemma NextFollows(front: seq<SeqMessage>, last: SeqMessage, b: seq<SeqMessage>)
    requires Increasing(b) && front <= b && last in b
    requires forall x :: x in front ==> Before(x, last)
    requires forall y :: y in b && y !in front && y != last ==> Before(last, y)
    ensures front + [last] <= b
  {
    var n := |front|;
    var j :| 0 <= j < |b| && b[j] == last;
    assert forall i :: 0 <= i < n ==> b[i] == front[i] && front[i] in front;
    assert n <= j;
    forall i | 0 <= i < n ensures front[i] != b[n] {
      assert Before(b[i], b[n]);
    }
    assert b[n] !in front && b[n] in b;
    assert forall x :: n < x < |b| ==> Before(b[n], b[x]);
  }

  /** If p has delivered something that q has not, q has delivered nothing that p has not. */
  lemma NestedLogs(s: System, p: nat, q: nat, a: SeqMessage, b: SeqMessage)
    requires Good(s) && p < |s.nodes| && q < |s.nodes|
    requires a in s.nodes[p].log && a !in s.nodes[q].log && b in s.nodes[q].log
    ensures b in s.nodes[p].log && Before(b, a)
  {
    assert NodeOk(s, p) && NodeOk(s, q);
    assert Handled(s, p, a) && Handled(s, q, b);
    UndeliveredIsAfter(s, q, a.key, b);
    if b !in s.nodes[p].log {
      UndeliveredIsAfter(s, p, b.key, a);
      assert false;
    }
  }

  lemma FirstHasAll(s: System, p: nat, m: SeqMessage)
    requires Good(s) && p < |s.nodes|
    ensures m in FirstDeliveries(s.nodes[p].log) <==> m in s.nodes[p].log
  {
    if m in s.nodes[p].log {
      assert HasKey(FirstDeliveries(s.nodes[p].log), m.key);
      var x :| x in FirstDeliveries(s.nodes[p].log) && x.key == m.key;
      assert NodeOk(s, p);
      assert Handled(s, p, x) && Handled(s, p, m);
    }
  }

  lemma PrefixIfSubset(s: System, p: nat, q: nat)
    requires Good(s) && p < |s.nodes| && q < |s.nodes|
    requires forall x :: x in s.nodes[p].log ==> x in s.nodes[q].log
    ensures FirstDeliveries(s.nodes[p].log) <= FirstDeliveries(s.nodes[q].log)
  {
    var a, b := FirstDeliveries(s.nodes[p].log), FirstDeliveries(s.nodes[q].log);
    assert LogOk(s.nodes[p]) && LogOk(s.nodes[q]);
    forall x | x in a ensures x in b {
      FirstHasAll(s, p, x);
      FirstHasAll(s, q, x);
    }
    forall x, y | x in a && y in b && y !in a ensures Before(x, y) {
      FirstHasAll(s, p, y);
      NestedLogs(s, q, p, y, x);
    }
    PrefixOfSorted(a, b);
  }

  lemma GoodPrefixAgreement(s: System, p: nat, q: nat)
    requires Good(s) && p < |s.nodes| && q < |s.nodes|
    ensures || FirstDeliveries(s.nodes[p].log) <= FirstDeliveries(s.nodes[q].log)
            || FirstDeliveries(s.nodes[q].log) <= FirstDeliveries(s.nodes[p].log)
  {
    if forall x :: x in s.nodes[p].log ==> x in s.nodes[q].log {
      PrefixIfSubset(s, p, q);
    } else {
      var a :| a in s.nodes[p].log && a !in s.nodes[q].log;
      forall b | b in s.nodes[q].log ensures b in s.nodes[p].log {
        NestedLogs(s, p, q, a, b);
      }
      PrefixIfSubset(s, q, p);
    }
  }

  /** Every delivery of a message, first or repeated, at any process, carries the same
      stamp, which is the one its sender fixed. */
  lemma StampAgreement(n: nat, steps: seq<Step>, s: System, p: nat, q: nat)
    requires 0 < n < 0x1_0000_0000 && Executes(Init(n), steps, s) && p < n && q < n
    ensures |s.nodes| == n
    ensures forall a :: a in s.nodes[p].log ==> s.Final(a.key) && s.senders[a.key].final == a
    ensures forall a, b :: a in s.nodes[p].log && b in s.nodes[q].log && a.key == b.key ==> a == b
  {
    ReachableSafe(n, steps, s);
    assert NodeOk(s, p) && NodeOk(s, q);
    forall a | a in s.nodes[p].log ensures s.Final(a.key) && s.senders[a.key].final == a {
      assert Handled(s, p, a);
    }
    forall a, b | a in s.nodes[p].log && b in s.nodes[q].log && a.key == b.key ensures a == b {
      assert Handled(s, p, a) && Handled(s, q, b);
    }
  }

  /** Any two processes agree: the first deliveries of one, final stamps included, are a
      prefix of those of the other. */
  lemma PrefixAgreement(n: nat, steps: seq<Step>, s: System, p: nat, q: nat)
    requires Reaches(n, steps, s) && p < |s.nodes| && q < |s.nodes|
    ensures || FirstDeliveries(s.nodes[p].log) <= FirstDeliveries(s.nodes[q].log)
            || FirstDeliveries(s.nodes[q].log) <= FirstDeliveries(s.nodes[p].log)
  {
    ReachableGood(n, steps, s);
    GoodPrefixAgreement(s, p, q);
  }

  /** Once q has delivered m and not k, k can never get a place before m: whatever final
      number k has then, or gets at any later time, sorts after m's. */
  lemma DownwardClosure(n: nat, steps: seq<Step>, s: System, more: seq<Step>, t: System,
                        q: nat, m: SeqMessage, k: Key)
    requires Reaches(n, steps, s) && Executes(s, more, t) && !WrapsAlong(s, more)
    requires q < |s.nodes| && m in s.nodes[q].log && !HasKey(s.nodes[q].log, k)
    requires t.Final(k)
    ensures Before(m, t.senders[k].final)
  {
    ReachableGood(n, steps, s);
    RunExtends(s, more, t);
    RunKeeps(s, more, t);
    var x := t.senders[k].final;
    assert SenderOk(t, k) && x.key == k;
    assert s.nodes[q].log <= t.nodes[q].log;
    if x !in t.nodes[q].log {
      UndeliveredIsAfter(t, q, k, m);
    } else {
      LogHasOneStamp(t, q);
      assert s.nodes[q].log == t.nodes[q].log[..|s.nodes[q].log|];
      assert LogOk(t.nodes[q]);
      DeliveredLaterIsAfter(t.nodes[q].log, |s.nodes[q].log|, m, x);
    }
  }

  lemma {:induction false} FirstOfPrefix(log: seq<SeqMessage>, i: nat)
    requires i <= |log|
    ensures FirstDeliveries(log[..i]) <= FirstDeliveries(log)
  {
    if i == |log| {
      assert log[..i] == log;
    } else {
      var front := log[..|log| - 1];
      FirstOfPrefix(front, i);
      assert front[..i] == log[..i];
      assert FirstDeliveries(front) <= FirstDeliveries(log);
    }
  }

  lemma DeliveredLaterIsAfter(log: seq<SeqMessage>, i: nat, m: SeqMessage, x: SeqMessage)
    requires i <= |log| && m in log[..i] && x in log && !HasKey(log[..i], x.key)
    requires OneStampPerKey(log) && Increasing(FirstDeliveries(log))
    ensures Before(m, x)
  {
    var a, b := FirstDeliveries(log[..i]), FirstDeliveries(log);
    FirstOfPrefix(log, i);
    assert HasKey(a, m.key) && HasKey(b, x.key);
    var j :| 0 <= j < |a| && a[j].key == m.key;
    var l :| 0 <= l < |b| && b[l].key == x.key;
    assert a[j] in a && b[l] in b && a[j] in log[..i];
    assert a[j] == m && b[l] == x;
    assert b[j] == m;
    assert forall y :: y in a ==> y.key != x.key;
    assert |a| <= l;
  }

  // ----- numbers

  /** A fixed final number is at least the proposal of every process, each of which really
      made the proposal that was recorded for it; the stamp names the lowest process that
      proposed the number. A process not told yet still holds exactly that proposal, and
      has never acknowledged the message with another. */
  lemma FinalDominatesProposals(n: nat, steps: seq<Step>, s: System, k: Key)
    requires 0 < n < 0x1_0000_0000 && Executes(Init(n), steps, s) && s.Final(k)
    ensures var t := s.senders[k];
            && |t.acks| == |s.nodes|
            && IsFinalStamp(t.acks, t.final.finalSeq, t.final.finalSeqProposer)
            && (forall q :: 0 <= q < |s.nodes| ==> AckMessage(k, t.acks[q], q) in s.acks)
            && (forall q :: 0 <= q < |s.nodes| && (q, k) !in s.seqAcks ==>
                  && k in s.Pending(q) && s.Pending(q)[k] == Proposal(t.acks[q], q)
                  && forall a :: a in s.acks && a.key == k && a.proposer == q ==> a.proposedSeq == t.acks[q])
  {
    ReachableSafe(n, steps, s);
    assert SenderOk(s, k);
    forall q | 0 <= q < |s.nodes| && (q, k) !in s.seqAcks
      ensures && k in s.Pending(q) && s.Pending(q)[k] == Proposal(s.senders[k].acks[q], q)
              && forall a :: a in s.acks && a.key == k && a.proposer == q ==> a.proposedSeq == s.senders[k].acks[q]
    {
      FinalDominatesPending(s, q, k);
      forall a | a in s.acks && a.key == k && a.proposer == q ensures a.proposedSeq == s.senders[k].acks[q] {
        assert AckOk(s, a);
      }
    }
  }

  /** No two messages get the same final number from the same proposer. */
  lemma UniqueFinalStamps(n: nat, steps: seq<Step>, s: System, j: Key, k: Key)
    requires Reaches(n, steps, s) && s.Final(j) && s.Final(k)
    requires s.senders[j].final.finalSeq == s.senders[k].final.finalSeq
    requires s.senders[j].final.finalSeqProposer == s.senders[k].final.finalSeqProposer
    ensures j == k
  {
    ReachableGood(n, steps, s);
    FinalIsProposed(s, j);
    FinalIsProposed(s, k);
  }

  /** Every counter, proposal and final number is at most the number of proposals ever
      made, so none has wrapped. */
  lemma NumbersBounded(n: nat, steps: seq<Step>, s: System)
    requires Reaches(n, steps, s)
    ensures forall q :: 0 <= q < |s.nodes| ==> s.nodes[q].proc.counter <= |s.acks|
    ensures forall a :: a in s.acks ==> 1 <= a.proposedSeq <= |s.acks|
    ensures forall k :: s.Final(k) ==> 1 <= s.senders[k].final.finalSeq <= |s.acks|
  {
    ReachableGood(n, steps, s);
    forall a | a in s.acks ensures 1 <= a.proposedSeq <= |s.acks| {
      assert NumberOk(s, a);
    }
    forall k | s.Final(k) ensures 1 <= s.senders[k].final.finalSeq <= |s.acks| {
      FinalInRange(s, k);
    }
  }

  /** A counter is at least every number its process proposed and every final number it
      was told; the unsequenced messages of a process have distinct numbers. */
  lemma ClockDominates(n: nat, steps: seq<Step>, s: System, q: nat)
    requires Reaches(n, steps, s) && q < |s.nodes|
    ensures forall a :: a in s.acks && a.proposer == q ==> a.proposedSeq <= s.nodes[q].proc.counter
    ensures forall k :: (q, k) in s.seqAcks ==> s.Final(k) && s.senders[k].final.finalSeq <= s.nodes[q].proc.counter
    ensures forall j, k :: j in s.Pending(q) && k in s.Pending(q) && j != k ==>
              s.Pending(q)[j].number != s.Pending(q)[k].number
  {
    ReachableGood(n, steps, s);
    CounterReached(s, q);
    assert NodeOk(s, q) && NoNumberTwice(s);
    forall j, k | j in s.Pending(q) && k in s.Pending(q) && j != k
      ensures s.Pending(q)[j].number != s.Pending(q)[k].number
    {
      var a, b := AckMessage(j, s.Pending(q)[j].number, q), AckMessage(k, s.Pending(q)[k].number, q);
      assert a in s.acks && b in s.acks && a != b;
    }
  }

  /** In a run that wraps no counter, no counter goes back. */
  lemma {:induction false} ClockAdvances(s: System, steps: seq<Step>, t: System, q: nat)
    requires Sized(s) && Executes(s, steps, t) && !WrapsAlong(s, steps) && q < |s.nodes|
    ensures q < |t.nodes| && s.nodes[q].proc.counter <= t.nodes[q].proc.counter
    decreases |steps|
  {
    if steps != [] {
      StepAdvances(s, steps[0], q);
      ClockAdvances(Apply(s, steps[0]), steps[1..], t, q);
    }
  }

  /** A step takes a counter back if and only if it wraps that counter. */
  lemma StepAdvances(s: System, step: Step, q: nat)
    requires Sized(s) && Enabled(s, step) && q < |s.nodes|
    ensures s.nodes[q].proc.counter <= Apply(s, step).nodes[q].proc.counter <==>
            !(Wraps(s, step) && step.q == q)
  {
  }

  /** A message accepted afresh is pending with a number never acknowledged before, which
      exceeds everything its process has proposed or been told, and the counter, if and
      only if the counter does not wrap. */
  lemma FreshProposalExceeds(n: nat, steps: seq<Step>, s: System, q: nat, k: Key)
    requires Reaches(n, steps, s) && Enabled(s, ReceiveData(q, k)) && k !in s.Pending(q)
    ensures var t := Apply(s, ReceiveData(q, k));
            var c := t.nodes[q].proc.counter;
            && k in t.Pending(q) && t.Pending(q)[k] == Proposal(c, q)
            && t.acks == s.acks + {AckMessage(k, c, q)} && AckMessage(k, c, q) !in s.acks
            && (!Wraps(s, ReceiveData(q, k)) <==>
                  && s.nodes[q].proc.counter < c
                  && (forall a :: a in s.acks && a.proposer == q ==> a.proposedSeq < c)
                  && (forall j :: (q, j) in s.seqAcks ==> s.Final(j) && s.senders[j].final.finalSeq < c))
  {
    ReachableGood(n, steps, s);
    assert QueueOk(s.nodes[q]);
    HandleDataAccepts(s, q, k);
    CounterReached(s, q);
    var ack := AckMessage(k, NextSeqNum(s.nodes[q].proc.counter), q);
    assert ack in s.acks ==> NumberOk(s, ack);
  }

  lemma CounterReached(s: System, q: nat)
    requires Numbered(s) && q < |s.nodes|
    ensures forall a :: a in s.acks && a.proposer == q ==> a.proposedSeq <= s.nodes[q].proc.counter
    ensures forall k :: (q, k) in s.seqAcks ==> s.Final(k) && s.senders[k].final.finalSeq <= s.nodes[q].proc.counter
  {
  }

  // ----- the queue in the system

  /** After any run whatever, wrapping or not, the map of each queue is exactly the
      unsequenced part of its ordered set, and no sequenced message waits at the head. */
  lemma QueuesAgree(n: nat, steps: seq<Step>, s: System, q: nat)
    requires 0 < n < 0x1_0000_0000 && Executes(Init(n), steps, s) && q < n
    ensures |s.nodes| == n
    ensures Sorted(s.Held(q)) && IndexAgrees(s.nodes[q].proc.queue) && HeadDrained(s.nodes[q].proc.queue)
  {
    ReachableSafe(n, steps, s);
    assert QueueOk(s.nodes[q]);
  }

  /** A message q has accepted is never lost: it is pending at q, or waits there with its
      final number, or has been delivered there with it. */
  lemma Conservation(n: nat, steps: seq<Step>, s: System, a: AckMessage)
    requires 0 < n < 0x1_0000_0000 && Executes(Init(n), steps, s) && a in s.acks
    ensures var q, k := a.proposer as nat, a.key;
            && q < |s.nodes|
            && (|| k in s.Pending(q)
                || (s.Final(k) && EntryOf(s.senders[k].final) in s.Held(q))
                || (s.Final(k) && s.senders[k].final in s.nodes[q].log))
  {
    ReachableSafe(n, steps, s);
    assert AckOk(s, a);
    if (a.proposer, a.key) in s.seqAcks {
      assert SeqAckOk(s, a.proposer, a.key);
    }
  }

  /** A message q was told is delivered there if and only if everything still pending at q
      has a number above its final number. A Data copy accepted late can thus hold back
      other messages too. */
  lemma DeliveredIff(n: nat, steps: seq<Step>, s: System, q: nat, k: Key)
    requires Reaches(n, steps, s) && (q, k) in s.seqAcks
    ensures q < |s.nodes| && s.Final(k)
    ensures s.senders[k].final in s.nodes[q].log <==>
            forall j :: j in s.Pending(q) ==> s.senders[k].final.finalSeq < s.Pending(q)[j].number
  {
    ReachableGood(n, steps, s);
    assert SeqAckOk(s, q, k) && QueueOk(s.nodes[q]) && Closed(s.nodes[q]);
    if s.senders[k].final in s.nodes[q].log {
      DeliveredIsUnblocked(s.nodes[q], s.senders[k].final);
    } else {
      var j := HeldIsBlocked(s.nodes[q].proc.queue, s.senders[k].final);
      assert j in s.Pending(q);
    }
  }

  lemma DeliveredIsUnblocked(v: Node, m: SeqMessage)
    requires QueueOk(v) && Closed(v) && m in v.log
    ensures forall j :: j in v.proc.queue.pending ==> m.finalSeq < v.proc.queue.pending[j].number
  {
    forall j | j in v.proc.queue.pending ensures m.finalSeq < v.proc.queue.pending[j].number {
      assert Less(EntryOf(m), Unsequenced(j, v.proc.queue.pending[j]));
    }
  }

  lemma HeldIsBlocked(queue: Queue, m: SeqMessage) returns (j: Key)
    requires ValidQueue(queue) && EntryOf(m) in queue.ordering
    ensures j in queue.pending && queue.pending[j].number <= m.finalSeq
  {
    var i :| 0 <= i < |queue.ordering| && queue.ordering[i] == EntryOf(m);
    var head := queue.ordering[0];
    assert head in queue.ordering && head.key in queue.pending;
    assert i > 0 && Less(head, EntryOf(m));
    j := head.key;
  }

  // ----- real time

  /** Process p's counter has reached c, and p has proposed for k only above c. */
  ghost predicate ProposesAbove(s: System, p: nat, k: Key, c: nat) {
    && p < |s.nodes| && c <= s.nodes[p].proc.counter
    && forall a :: a in s.acks && a.key == k && a.proposer == p ==> a.proposedSeq > c
  }

  lemma StepProposesAbove(s: System, step: Step, p: nat, k: Key, c: nat)
    requires Safe(s) && Enabled(s, step) && !Wraps(s, step) && ProposesAbove(s, p, k, c)
    ensures ProposesAbove(Apply(s, step), p, k, c)
  {
    StepAdvances(s, step, p);
    if step.ReceiveData? {
      var q := step.q;
      assert NodeOk(s, q);
      if step.k in s.Pending(q) {
        RepeatedData(s, q, step.k);
      } else {
        AcceptsNext(s, q, step.k);
      }
    }
  }

  lemma {:induction false} RunProposesAbove(s: System, steps: seq<Step>, t: System, p: nat, k: Key, c: nat)
    requires Safe(s) && Executes(s, steps, t) && !WrapsAlong(s, steps) && ProposesAbove(s, p, k, c)
    ensures ProposesAbove(t, p, k, c)
    decreases |steps|
  {
    if steps != [] {
      StepSafe(s, steps[0]);
      StepProposesAbove(s, steps[0], p, k, c);
      RunProposesAbove(Apply(s, steps[0]), steps[1..], t, p, k, c);
    }
  }

  /** A message launched after another has its final number gets a strictly greater one,
      whoever sends the two. */
  lemma RealTimeOrder(n: nat, steps: seq<Step>, s: System, more: seq<Step>, t: System, j: Key, k: Key)
    requires Reaches(n, steps, s) && Executes(s, more, t) && !WrapsAlong(s, more)
    requires s.Final(j) && k !in s.senders && t.Final(k)
    ensures t.Final(j) && t.senders[j].final == s.senders[j].final
    ensures s.senders[j].final.finalSeq < t.senders[k].final.finalSeq
  {
    ReachableGood(n, steps, s);
    var f := s.senders[j].final;
    var p := f.finalSeqProposer;
    FinalIsProposed(s, j);
    assert NumberOk(s, AckMessage(j, f.finalSeq, p));
    forall a | a in s.acks ensures a.key != k {
      assert AckOk(s, a);
    }
    RunProposesAbove(s, more, t, p, k, f.finalSeq);
    RunExtends(s, more, t);
    RunSafe(s, more, t);
    assert SenderOk(t, k);
    assert AckMessage(k, t.senders[k].acks[p], p) in t.acks;
  }

  // ----- repeated deliveries: exactly when

  ghost predicate NoRepeat(log: seq<SeqMessage>) {
    forall i, j :: 0 <= i < j < |log| ==> log[i].key != log[j].key
  }

  /** A message is late at q when a Data copy was accepted there after its Seq. */
  ghost predicate Late(s: System, q: nat, k: Key)
    requires q < |s.nodes|
  {
    k in s.Pending(q) && (q, k) in s.seqAcks
  }

  /** Handling a Seq repeats a delivery exactly when its message was delivered before and
      is pending again, and then it repeats that one message. */
  lemma RepeatedDeliveryExactly(n: nat, steps: seq<Step>, s: System, q: nat, m: SeqMessage)
    requires Reaches(n, steps, s) && Enabled(s, ReceiveSeq(q, m))
    ensures var out := HandleSeq(s.nodes[q].proc, m).1;
            && (forall x :: x in out && x in s.nodes[q].log <==> x == m && m in s.nodes[q].log && Late(s, q, m.key))
            && Increasing(out)
  {
    ReachableGood(n, steps, s);
    GoodRepeatedDelivery(s, q, m);
  }

  lemma GoodRepeatedDelivery(s: System, q: nat, m: SeqMessage)
    requires Good(s) && Enabled(s, ReceiveSeq(q, m))
    ensures var out := HandleSeq(s.nodes[q].proc, m).1;
            && (forall x :: x in out && x in s.nodes[q].log <==> x == m && m in s.nodes[q].log && Late(s, q, m.key))
            && Increasing(out)
  {
    var out := HandleSeq(s.nodes[q].proc, m).1;
    assert NodeOk(s, q) && Closed(s.nodes[q]);
    if m.key in s.Pending(q) {
      ReceiveSeqSequences(s, q, m);
      assert QueueOk(s.nodes[q]);
      OneFinal(s, q, m);
      if m in s.nodes[q].log {
        DeliveredAgain(s.nodes[q], m);
      }
      forall x ensures x in out && x in s.nodes[q].log <==> x == m && m in s.nodes[q].log && Late(s, q, m.key) {
        if x == m {
          assert m in s.nodes[q].log ==> Handled(s, q, m);
        } else {
          assert x in s.nodes[q].log && EntryOf(x) in s.Held(q) ==> Less(EntryOf(x), EntryOf(x));
        }
      }
    }
  }

  /** Exactly once holds of a log after a Seq, given that it held before, if and only if
      the message was not both delivered and pending again. */
  lemma ExactlyOnceStep(s: System, q: nat, m: SeqMessage)
    requires Good(s) && Enabled(s, ReceiveSeq(q, m)) && NoRepeat(s.nodes[q].log)
    ensures NoRepeat(Apply(s, ReceiveSeq(q, m)).nodes[q].log) <==>
            !(m in s.nodes[q].log && m.key in s.Pending(q))
  {
    var log, out := s.nodes[q].log, HandleSeq(s.nodes[q].proc, m).1;
    var t := Apply(s, ReceiveSeq(q, m));
    assert t.nodes[q].log == log + out;
    GoodRepeatedDelivery(s, q, m);
    assert NodeOk(s, q);
    assert m in log ==> Handled(s, q, m);
    if m in log && m.key in s.Pending(q) {
      Repeats(log, out, m);
    } else {
      ReceiveSeqKeeps(s, q, m);
      LogHasOneStamp(t, q);
      NoRepeats(log, out);
    }
  }

  lemma Repeats(log: seq<SeqMessage>, out: seq<SeqMessage>, m: SeqMessage)
    requires m in log && m in out
    ensures !NoRepeat(log + out)
  {
    var i :| 0 <= i < |log| && log[i] == m;
    var j :| 0 <= j < |out| && out[j] == m;
    assert (log + out)[i] == m && (log + out)[|log| + j] == m;
  }

  lemma NoRepeats(log: seq<SeqMessage>, out: seq<SeqMessage>)
    requires NoRepeat(log) && Increasing(out) && OneStampPerKey(log + out)
    requires forall x :: x in out ==> x !in log
    ensures NoRepeat(log + out)
  {
    var all := log + out;
    forall i, j | 0 <= i < j < |all| ensures all[i].key != all[j].key {
      assert all[i] in all && all[j] in all;
      if i < |log| <= j {
        assert all[i] in log && all[j] in out;
      } else if |log| <= i {
        assert Before(out[i - |log|], out[j - |log|]);
      }
    }
  }

  /** A message becomes late exactly when q receives its Data after having handled its
      Seq; no other step makes it so. */
  lemma LateDataExactly(s: System, step: Step, q: nat, k: Key)
    requires Sized(s) && Enabled(s, step) && q < |s.nodes| && !Late(s, q, k)
    ensures Late(Apply(s, step), q, k) <==> step == ReceiveData(q, k) && (q, k) in s.seqAcks
  {
  }

  /** No message delivered twice, and none delivered that is still held. */
  ghost predicate Once(v: Node) {
    NoRepeat(v.log) && forall m :: m in v.log ==> EntryOf(m) !in v.proc.queue.ordering
  }

  /** A Seq keeps that, wherever its message is not late. */
  lemma SequencesOnce(s: System, q: nat, m: SeqMessage)
    requires Safe(s) && Enabled(s, ReceiveSeq(q, m)) && m.key in s.Pending(q)
    requires Once(s.nodes[q]) && !Late(s, q, m.key)
    ensures Once(Apply(s, ReceiveSeq(q, m)).nodes[q])
  {
    var t, log, out := Apply(s, ReceiveSeq(q, m)), s.nodes[q].log, HandleSeq(s.nodes[q].proc, m).1;
    ReceiveSeqSequences(s, q, m);
    ReceiveSeqSafe(s, q, m);
    assert NodeOk(s, q);
    assert m in log ==> Handled(s, q, m);
    LogHasOneStamp(t, q);
    NoRepeats(log, out);
  }

  lemma StepOnce(s: System, step: Step, q: nat)
    requires Safe(s) && Enabled(s, step) && q < |s.nodes|
    requires Once(s.nodes[q]) && forall k :: !Late(s, q, k)
    ensures Once(Apply(s, step).nodes[q])
  {
    match step
    case ReceiveSeq(r, m) =>
      if r == q && m.key in s.Pending(q) {
        SequencesOnce(s, q, m);
      } else if r == q {
        ReceiveSeqReplays(s, q, m);
      }
    case ReceiveData(r, k) =>
      if r == q && k !in s.Pending(q) {
        assert QueueOk(s.nodes[q]);
        HandleDataAccepts(s, q, k);
      }
    case _ =>
  }

  // ----- the steps and the datagrams

  /** Receiving a Data message is what a process does with the datagram that carries it,
      whatever the payload: it passes validation, and the reply is the Ack recorded. */
  lemma DataStepIsReaction(n: nat, steps: seq<Step>, s: System, q: nat, k: Key, payload: u32, r: Reaction)
    requires 0 < n < 0x1_0000_0000 && Executes(Init(n), steps, s) && Enabled(s, ReceiveData(q, k))
    requires Reacts(s.nodes[q].proc, q, n, Encode(DataMsg(DataMessage(k, payload))), r)
    ensures var t := Apply(s, ReceiveData(q, k));
            && t.nodes[q].proc == r.state && t.nodes[q].log == s.nodes[q].log + r.delivered
            && exists a :: r.reply == Some(Encode(AckMsg(a))) && t.acks == s.acks + {a}
  {
    ReachableSafe(n, steps, s);
    assert SenderOk(s, k);
    var d := DataMessage(k, payload);
    assert Encode(DataMsg(d)) == Encode(DataMsg(d)) && d.key.sender < n;
    var ack := HandleData(s.nodes[q].proc, q, k).1;
    assert r.reply == Some(Encode(AckMsg(ack)));
  }

  /** Likewise for a Seq message: it passes validation, the deliveries are appended to the
      log, and the reply is the SeqAck recorded. */
  lemma SeqStepIsReaction(n: nat, steps: seq<Step>, s: System, q: nat, m: SeqMessage, r: Reaction)
    requires 0 < n < 0x1_0000_0000 && Executes(Init(n), steps, s) && Enabled(s, ReceiveSeq(q, m))
    requires Reacts(s.nodes[q].proc, q, n, Encode(SeqMsg(m)), r)
    ensures var t := Apply(s, ReceiveSeq(q, m));
            && t.nodes[q].proc == r.state && t.nodes[q].log == s.nodes[q].log + r.delivered
            && r.reply == Some(Encode(SeqAckMsg(SeqAckMessage(m.key)))) && t.seqAcks == s.seqAcks + {(q, m.key)}
  {
    ReachableSafe(n, steps, s);
    assert SeqOk(s, q, m) && SenderOk(s, m.key);
    assert Encode(SeqMsg(m)) == Encode(SeqMsg(m)) && m.key.sender < n && m.finalSeqProposer < n;
  }
}
