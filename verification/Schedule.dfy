/** When a run leaves a queue empty and a log free of repeats, said of the receptions at
    that process alone, for every run over the arbitrary network. */
module Schedule {
  import opened Wire
  import opened HoldBack
  import opened TotalOrder
  import opened Invariant
  import opened Safety
  import opened Theorems

  /** Some step hands q the Seq of k. */
  ghost predicate Told(steps: seq<Step>, q: nat, k: Key) {
    exists i :: 0 <= i < |steps| && steps[i].ReceiveSeq? && steps[i].q == q && steps[i].m.key == k
  }

  /** Step i hands q the Data of k. */
  predicate DataAt(steps: seq<Step>, i: nat, q: nat, k: Key) {
    i < |steps| && steps[i] == ReceiveData(q, k)
  }

  // ----- the queue: empty, exactly when

  /** Every Data that q receives is followed by a Seq of the same message. */
  ghost predicate EveryDataSequenced(steps: seq<Step>, q: nat) {
    forall i: nat, k :: DataAt(steps, i, q, k) ==> Told(steps[i + 1..], q, k)
  }

  ghost predicate Unanswered(steps: seq<Step>, q: nat, k: Key) {
    exists i: nat :: DataAt(steps, i, q, k) && !Told(steps[i + 1..], q, k)
  }

  lemma ToldTail(steps: seq<Step>, q: nat, k: Key)
    requires steps != []
    ensures Told(steps, q, k) <==>
            || (steps[0].ReceiveSeq? && steps[0].q == q && steps[0].m.key == k)
            || Told(steps[1..], q, k)
  {
    var tail := steps[1..];
    if Told(tail, q, k) {
      var i :| 0 <= i < |tail| && tail[i].ReceiveSeq? && tail[i].q == q && tail[i].m.key == k;
      assert steps[i + 1] == tail[i];
    }
    if Told(steps, q, k) {
      var i :| 0 <= i < |steps| && steps[i].ReceiveSeq? && steps[i].q == q && steps[i].m.key == k;
      assert i > 0 ==> tail[i - 1] == steps[i];
    }
  }

  lemma UnansweredTail(steps: seq<Step>, q: nat, k: Key)
    requires steps != []
    ensures Unanswered(steps, q, k) <==>
            || (steps[0] == ReceiveData(q, k) && !Told(steps[1..], q, k))
            || Unanswered(steps[1..], q, k)
  {
    var tail := steps[1..];
    if Unanswered(tail, q, k) {
      var i: nat :| DataAt(tail, i, q, k) && !Told(tail[i + 1..], q, k);
      assert DataAt(steps, i + 1, q, k) && steps[i + 1 + 1..] == tail[i + 1..];
    }
    if Unanswered(steps, q, k) {
      var i: nat :| DataAt(steps, i, q, k) && !Told(steps[i + 1..], q, k);
      if i > 0 {
        assert DataAt(tail, i - 1, q, k) && tail[i - 1 + 1..] == steps[i + 1..];
      }
    }
    if steps[0] == ReceiveData(q, k) && !Told(steps[1..], q, k) {
      assert DataAt(steps, 0, q, k);
    }
  }

  lemma StepPending(s: System, step: Step, q: nat, k: Key)
    requires Sized(s) && Enabled(s, step) && q < |s.nodes|
    ensures k in Apply(s, step).Pending(q) <==>
            || step == ReceiveData(q, k)
            || (k in s.Pending(q) && !(step.ReceiveSeq? && step.q == q && step.m.key == k))
  {
  }

  /** A message is pending exactly when its last reception at q was a Data. */
  lemma {:induction false} PendingExactly(s: System, steps: seq<Step>, t: System, q: nat, k: Key)
    requires Sized(s) && Executes(s, steps, t) && q < |s.nodes|
    ensures k in t.Pending(q) <==> Unanswered(steps, q, k) || (k in s.Pending(q) && !Told(steps, q, k))
    decreases |steps|
  {
    if steps != [] {
      StepPending(s, steps[0], q, k);
      PendingExactly(Apply(s, steps[0]), steps[1..], t, q, k);
      ToldTail(steps, q, k);
      UnansweredTail(steps, q, k);
    }
  }

  lemma EmptyIfNonePending(v: Queue)
    requires ValidQueue(v)
    ensures v == EMPTY <==> v.pending == map[]
  {
  }

  lemma SequencedIfNoneUnanswered(steps: seq<Step>, q: nat)
    ensures EveryDataSequenced(steps, q) <==> forall k :: !Unanswered(steps, q, k)
  {
    if !EveryDataSequenced(steps, q) {
      var i: nat, k :| DataAt(steps, i, q, k) && !Told(steps[i + 1..], q, k);
      assert Unanswered(steps, q, k);
    }
  }

  /** After any run whatever, wrapping or not, the queue of q is empty if and only if
      every Data that q received was followed by a Seq of the same message. */
  lemma QueueEmptyIff(n: nat, steps: seq<Step>, s: System, q: nat)
    requires 0 < n < 0x1_0000_0000 && Executes(Init(n), steps, s) && q < n
    ensures |s.nodes| == n
    ensures s.nodes[q].proc.queue == EMPTY <==> EveryDataSequenced(steps, q)
  {
    ReachableSafe(n, steps, s);
    assert QueueOk(s.nodes[q]);
    EmptyIfNonePending(s.nodes[q].proc.queue);
    SequencedIfNoneUnanswered(steps, q);
    var pending := s.Pending(q);
    forall k ensures k in pending <==> Unanswered(steps, q, k) {
      PendingExactly(Init(n), steps, s, q, k);
    }
    assert pending == map[] <==> forall k :: k !in pending;
  }

  // ----- the log: free of repeats, exactly when

  /** The step hands q the Seq of a message delivered at q and pending there again. */
  predicate RepeatsAt(s: System, step: Step, q: nat)
    requires q < |s.nodes|
  {
    step.ReceiveSeq? && step.q == q && step.m in s.nodes[q].log && step.m.key in s.Pending(q)
  }

  /** Some step of the run does so. */
  ghost predicate RepeatsAlong(s: System, steps: seq<Step>, q: nat)
    requires Sized(s) && q < |s.nodes|
    decreases |steps|
  {
    && steps != [] && Enabled(s, steps[0])
    && (RepeatsAt(s, steps[0], q) || RepeatsAlong(Apply(s, steps[0]), steps[1..], q))
  }

  lemma PrefixNoRepeat(a: seq<SeqMessage>, b: seq<SeqMessage>)
    requires a <= b && NoRepeat(b)
    ensures NoRepeat(a)
  {
    assert forall i :: 0 <= i < |a| ==> a[i] == b[i];
  }

  lemma StepRepeats(s: System, step: Step, q: nat)
    requires Good(s) && Enabled(s, step) && q < |s.nodes|
    ensures NoRepeat(Apply(s, step).nodes[q].log) <==> NoRepeat(s.nodes[q].log) && !RepeatsAt(s, step, q)
  {
    var t := Apply(s, step);
    StepExtends(s, step);
    if NoRepeat(t.nodes[q].log) {
      PrefixNoRepeat(s.nodes[q].log, t.nodes[q].log);
    }
    if step.ReceiveSeq? && step.q == q && NoRepeat(s.nodes[q].log) {
      ExactlyOnceStep(s, q, step.m);
    }
  }

  lemma {:induction false} RunRepeats(s: System, steps: seq<Step>, t: System, q: nat)
    requires Good(s) && Executes(s, steps, t) && !WrapsAlong(s, steps) && q < |s.nodes|
    ensures NoRepeat(t.nodes[q].log) <==> NoRepeat(s.nodes[q].log) && !RepeatsAlong(s, steps, q)
    decreases |steps|
  {
    if steps != [] {
      StepKeeps(s, steps[0]);
      StepRepeats(s, steps[0], q);
      RunRepeats(Apply(s, steps[0]), steps[1..], t, q);
    }
  }

  /** Over a whole run, q delivers no message twice if and only if no step hands q the Seq
      of a message that is delivered there and pending there again. */
  lemma ExactlyOnceIff(n: nat, steps: seq<Step>, s: System, q: nat)
    requires Reaches(n, steps, s) && q < n
    ensures NoRepeat(s.nodes[q].log) <==> !RepeatsAlong(Init(n), steps, q)
  {
    InitGood(n);
    RunRepeats(Init(n), steps, s, q);
  }

  /** q receives no Data of a message after a Seq of it. */
  ghost predicate NoDataAfterSeq(steps: seq<Step>, q: nat) {
    forall i: nat, k :: DataAt(steps, i, q, k) ==> !Told(steps[..i], q, k)
  }

  lemma NoDataAfterSeqTail(steps: seq<Step>, q: nat)
    requires steps != [] && NoDataAfterSeq(steps, q)
    ensures NoDataAfterSeq(steps[1..], q)
    ensures forall i: nat, k :: DataAt(steps[1..], i, q, k) ==>
              !(steps[0].ReceiveSeq? && steps[0].q == q && steps[0].m.key == k)
  {
    var tail := steps[1..];
    forall i: nat, k | DataAt(tail, i, q, k)
      ensures !Told(tail[..i], q, k)
      ensures !(steps[0].ReceiveSeq? && steps[0].q == q && steps[0].m.key == k)
    {
      assert DataAt(steps, i + 1, q, k);
      ToldTail(steps[..i + 1], q, k);
      assert steps[..i + 1][1..] == tail[..i] && steps[..i + 1][0] == steps[0];
    }
  }

  /** No message is late at q, and none becomes late in the run. */
  ghost predicate Timely(s: System, steps: seq<Step>, q: nat)
    requires q < |s.nodes|
  {
    && (forall k :: !Late(s, q, k))
    && NoDataAfterSeq(steps, q)
    && forall i: nat, k :: DataAt(steps, i, q, k) ==> (q, k) !in s.seqAcks
  }

  lemma StepTimely(s: System, steps: seq<Step>, q: nat)
    requires Sized(s) && steps != [] && Enabled(s, steps[0]) && q < |s.nodes| && Timely(s, steps, q)
    ensures Timely(Apply(s, steps[0]), steps[1..], q)
  {
    var step, t, tail := steps[0], Apply(s, steps[0]), steps[1..];
    NoDataAfterSeqTail(steps, q);
    forall k ensures !Late(t, q, k) {
      LateDataExactly(s, step, q, k);
      assert step == ReceiveData(q, k) ==> DataAt(steps, 0, q, k);
    }
    forall i: nat, k | DataAt(tail, i, q, k) ensures (q, k) !in t.seqAcks {
      assert DataAt(steps, i + 1, q, k);
    }
  }

  lemma {:induction false} TimelyOnce(s: System, steps: seq<Step>, t: System, q: nat)
    requires Safe(s) && Executes(s, steps, t) && q < |s.nodes| && Timely(s, steps, q) && Once(s.nodes[q])
    ensures Once(t.nodes[q])
    decreases |steps|
  {
    if steps != [] {
      StepSafe(s, steps[0]);
      StepOnce(s, steps[0], q);
      StepTimely(s, steps, q);
      TimelyOnce(Apply(s, steps[0]), steps[1..], t, q);
    }
  }

  /** After any run whatever, wrapping or not: if q received no Data of a message after a
      Seq of it, q delivered no message twice. */
  lemma ExactlyOnceIfTimely(n: nat, steps: seq<Step>, s: System, q: nat)
    requires 0 < n < 0x1_0000_0000 && Executes(Init(n), steps, s) && q < n && NoDataAfterSeq(steps, q)
    ensures |s.nodes| == n && NoRepeat(s.nodes[q].log)
  {
    InitSafe(n);
    TimelyOnce(Init(n), steps, s, q);
  }
}
