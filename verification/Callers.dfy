/** The processes of the system as callers of their queues: the queue and the log of a
    process are what the calls it makes give, and as long as no counter wraps and no Data
    comes after its Seq, the process is a careful caller. */
module Callers {
  import opened Wire
  import opened HoldBack
  import opened QueueHistory
  import opened Processes
  import opened TotalOrder
  import opened Safety
  import opened Invariant
  import opened Theorems
  import opened Schedule

  /** The call that process q makes in a step. */
  function CallsIn(s: System, step: Step, q: nat): seq<Call>
    requires Sized(s) && Enabled(s, step) && q < |s.nodes|
  {
    match step
    case ReceiveData(r, k) =>
      if r == q && k !in s.Pending(q) then [InsertCall(AckMessage(k, NextSeqNum(s.nodes[q].proc.counter), q))] else []
    case ReceiveSeq(r, m) => if r == q then [SequenceCall(m)] else []
    case _ => []
  }

  ghost function CallsOf(s: System, steps: seq<Step>, q: nat): seq<Call>
    requires Sized(s) && q < |s.nodes|
    decreases |steps|
  {
    if steps == [] || !Enabled(s, steps[0]) then []
    else CallsIn(s, steps[0], q) + CallsOf(Apply(s, steps[0]), steps[1..], q)
  }

  lemma CallsAssoc(a: seq<Call>, b: seq<Call>, c: seq<Call>)
    ensures a + b + c == a + (b + c)
  {
  }

  lemma {:induction false} CallsSnoc(s: System, steps: seq<Step>, t: System, step: Step, q: nat)
    requires Sized(s) && q < |s.nodes| && Executes(s, steps, t) && Enabled(t, step)
    ensures CallsOf(s, steps + [step], q) == CallsOf(s, steps, q) + CallsIn(t, step, q)
    decreases |steps|
  {
    if steps == [] {
      assert steps + [step] == [step] && [step][1..] == [];
      assert CallsOf(Apply(t, step), [], q) == [];
    } else {
      var mid := Apply(s, steps[0]);
      CallsSnoc(mid, steps[1..], t, step, q);
      assert (steps + [step])[0] == steps[0] && (steps + [step])[1..] == steps[1..] + [step];
      CallsAssoc(CallsIn(s, steps[0], q), CallsOf(mid, steps[1..], q), CallsIn(t, step, q));
    }
  }

  // ----- the queue and the log are what the calls give

  lemma PlaySnoc(calls: seq<Call>, c: Call)
    ensures var (q, out) := Play(calls);
            Play(calls + [c]) ==
            match c
            case InsertCall(a) => if a.key in q.pending then (q, out) else (Enqueue(q, a), out)
            case SequenceCall(m) => (Sequence(q, m).0, out + Sequence(q, m).1)
  {
    assert (calls + [c])[..|calls|] == calls;
  }

  lemma StepPlays(s: System, step: Step, q: nat, calls: seq<Call>)
    requires Sized(s) && Enabled(s, step) && q < |s.nodes|
    requires Play(calls) == (s.nodes[q].proc.queue, s.nodes[q].log)
    ensures var t := Apply(s, step);
            Play(calls + CallsIn(s, step, q)) == (t.nodes[q].proc.queue, t.nodes[q].log)
  {
    var more := CallsIn(s, step, q);
    if more == [] {
      assert calls + more == calls;
    } else {
      PlaySnoc(calls, more[0]);
      assert more == [more[0]];
    }
  }

  /** After every run, the queue and the log of a process are what its calls give. */
  lemma {:induction false} SystemPlays(n: nat, steps: seq<Step>, s: System, q: nat)
    requires 0 < n < 0x1_0000_0000 && Executes(Init(n), steps, s) && q < n
    ensures |s.nodes| == n
    ensures Play(CallsOf(Init(n), steps, q)) == (s.nodes[q].proc.queue, s.nodes[q].log)
    decreases |steps|
  {
    if steps != [] {
      var front, step := steps[..|steps| - 1], steps[|steps| - 1];
      assert steps == front + [step];
      var mid := Unsnoc(Init(n), steps, s);
      SystemPlays(n, front, mid, q);
      CallsSnoc(Init(n), front, mid, step, q);
      StepPlays(mid, step, q, CallsOf(Init(n), front, q));
    }
  }

  // ----- a careful caller

  lemma TopGrows(calls: seq<Call>)
    requires calls != []
    ensures Top(calls[..|calls| - 1]) <= Top(calls)
  {
  }

  lemma LastBelowTop(calls: seq<Call>, x: u32)
    requires calls != [] && Brought(calls, |calls| - 1, x)
    ensures x <= Top(calls)
  {
  }

  lemma {:induction false} PrefixTop(calls: seq<Call>, n: nat)
    requires n <= |calls|
    ensures Top(calls[..n]) <= Top(calls)
  {
    if n == |calls| {
      assert calls[..n] == calls;
    } else {
      var front := calls[..|calls| - 1];
      PrefixTop(front, n);
      assert front[..n] == calls[..n];
      TopGrows(calls);
    }
  }

  lemma BroughtBelowTop(calls: seq<Call>, i: nat, x: u32)
    requires i < |calls| && Brought(calls, i, x)
    ensures x <= Top(calls)
  {
    BroughtPrefix(calls, i + 1, i, x);
    LastBelowTop(calls[..i + 1], x);
    PrefixTop(calls, i + 1);
  }

  lemma TopSnoc(calls: seq<Call>, c: Call)
    ensures Top(calls + [c]) ==
            var x := match c
              case InsertCall(a) => a.proposedSeq as int
              case SequenceCall(m) => if m.key in Play(calls).0.pending then m.finalSeq else -1;
            if x > Top(calls) then x else Top(calls)
  {
    assert (calls + [c])[..|calls|] == calls;
  }

  lemma RelySnoc(calls: seq<Call>, c: Call)
    requires Rely(calls)
    requires match c
             case InsertCall(a) => Top(calls) < a.proposedSeq
             case SequenceCall(m) =>
               var p := Play(calls).0.pending; m.key in p ==> p[m.key].number <= m.finalSeq
    ensures Rely(calls + [c])
  {
    var all := calls + [c];
    assert all[..|calls|] == calls;
    forall i | 0 <= i < |all| ensures RelyAt(all, i) {
      if i < |calls| {
        RelyLonger(calls, c, i);
      } else {
        forall j, x: u32 | 0 <= j < i && Brought(all, j, x) ensures x <= Top(calls) {
          BroughtPrefix(all, |calls|, j, x);
          BroughtBelowTop(calls, j, x);
        }
      }
    }
  }

  lemma RelyLonger(calls: seq<Call>, c: Call, i: nat)
    requires i < |calls| && RelyAt(calls, i)
    ensures RelyAt(calls + [c], i)
  {
    var all := calls + [c];
    assert all[..|calls|] == calls && all[..i] == calls[..i];
    forall j, x: u32 | 0 <= j < i && Brought(all, j, x) ensures Brought(calls, j, x) {
      BroughtPrefix(all, |calls|, j, x);
    }
  }

  /** The counter has reached all numbers of the calls so far, and the calls are careful. */
  ghost predicate Careful(v: Node, calls: seq<Call>) {
    Play(calls) == (v.proc.queue, v.log) && Top(calls) <= v.proc.counter && Rely(calls)
  }

  lemma InsertCareful(s: System, q: nat, k: Key, calls: seq<Call>)
    requires Safe(s) && Enabled(s, ReceiveData(q, k)) && k !in s.Pending(q) && !Wraps(s, ReceiveData(q, k))
    requires Careful(s.nodes[q], calls)
    ensures Careful(Apply(s, ReceiveData(q, k)).nodes[q], calls + CallsIn(s, ReceiveData(q, k), q))
  {
    var c := CallsIn(s, ReceiveData(q, k), q)[0];
    StepPlays(s, ReceiveData(q, k), q, calls);
    AcceptsNext(s, q, k);
    TopSnoc(calls, c);
    RelySnoc(calls, c);
  }

  lemma SequenceCareful(s: System, q: nat, m: SeqMessage, calls: seq<Call>)
    requires Safe(s) && Enabled(s, ReceiveSeq(q, m)) && !Late(s, q, m.key)
    requires Careful(s.nodes[q], calls)
    ensures Careful(Apply(s, ReceiveSeq(q, m)).nodes[q], calls + CallsIn(s, ReceiveSeq(q, m), q))
  {
    StepPlays(s, ReceiveSeq(q, m), q, calls);
    assert SeqOk(s, q, m);
    if m.key in s.Pending(q) {
      FinalDominatesPending(s, q, m.key);
    }
    TopSnoc(calls, SequenceCall(m));
    RelySnoc(calls, SequenceCall(m));
  }

  lemma StepCareful(s: System, step: Step, q: nat, calls: seq<Call>)
    requires Safe(s) && Enabled(s, step) && !Wraps(s, step) && q < |s.nodes| && Careful(s.nodes[q], calls)
    requires forall k :: !Late(s, q, k)
    ensures Careful(Apply(s, step).nodes[q], calls + CallsIn(s, step, q))
  {
    if step.ReceiveData? && step.q == q && step.k !in s.Pending(q) {
      InsertCareful(s, q, step.k, calls);
    } else if step.ReceiveSeq? && step.q == q {
      SequenceCareful(s, q, step.m, calls);
    } else {
      assert calls + [] == calls;
      StepPlays(s, step, q, calls);
    }
  }

  lemma {:induction false} TimelyCareful(s: System, steps: seq<Step>, t: System, q: nat, calls: seq<Call>)
    requires Safe(s) && Executes(s, steps, t) && !WrapsAlong(s, steps) && q < |s.nodes| && Timely(s, steps, q)
    requires Careful(s.nodes[q], calls)
    ensures Careful(t.nodes[q], calls + CallsOf(s, steps, q))
    decreases |steps|
  {
    if steps == [] {
      assert calls + [] == calls;
    } else {
      var step, mid := steps[0], Apply(s, steps[0]);
      StepSafe(s, step);
      StepTimely(s, steps, q);
      StepCareful(s, step, q, calls);
      TimelyCareful(mid, steps[1..], t, q, calls + CallsIn(s, step, q));
      CallsAssoc(calls, CallsIn(s, step, q), CallsOf(mid, steps[1..], q));
    }
  }

  /** A process that receives no Data of a message after a Seq of it, and whose counter does
      not wrap, calls its queue as the queue asks: with numbers above all earlier ones, and
      with final numbers not below the stored ones. */
  lemma SystemIsCareful(n: nat, steps: seq<Step>, s: System, q: nat)
    requires Reaches(n, steps, s) && q < n && NoDataAfterSeq(steps, q)
    ensures Rely(CallsOf(Init(n), steps, q))
  {
    InitSafe(n);
    TimelyCareful(Init(n), steps, s, q, []);
    assert [] + CallsOf(Init(n), steps, q) == CallsOf(Init(n), steps, q);
  }
}
