/** The steps of a sender in the system are those of the sender thread over its sockets:
    what a step may receive is what the thread's validator accepts; a thread that reads its
    answers one after the other, while everybody else goes on, is a run of the system; and
    every sender in the system has got where it is in such a way. */
module SenderSteps {
  import opened Wire
  import opened Senders
  import opened TotalOrder
  import opened Safety
  import opened Theorems

  // ----- what is received is what the validator accepts

  /** For a sender that asks process q for a proposal, an Ack sent can be received exactly
      when the validator for q accepts its encoding. */
  lemma AckStepIsValidated(s: System, k: Key, a: AckMessage)
    requires Sized(s) && Asking(s, k)
    ensures Enabled(s, ReceiveAck(a)) && a.key == k <==>
            a in s.acks && AckValidator(k, |s.senders[k].acks|)(Encode(AckMsg(a)))
  {
    var q, e := |s.senders[k].acks|, AckEvent(a.key, a.proposer, a.proposedSeq);
    ValidatorAcceptsProposals(e, k, q);
    if x :| e == AckEvent(k, q, x) {
      EncodeInjective(AckMsg(a), AckMsg(AckMessage(k, x, q)));
    }
  }

  /** For a sender that tells process q, a SeqAck of q can be received exactly when the
      validator of the Seq message accepts its encoding. */
  lemma SeqAckStepIsValidated(n: nat, steps: seq<Step>, s: System, k: Key, j: Key)
    requires 0 < n < 0x1_0000_0000 && Executes(Init(n), steps, s) && s.Final(k) && s.senders[k].next < n
    ensures var q := s.senders[k].next;
            Enabled(s, ReceiveSeqAck(q, j)) && j == k <==>
            (q, j) in s.seqAcks && SeqAckValidator(s.senders[k].final)(Encode(SeqAckMsg(SeqAckMessage(j))))
  {
    ReachableSafe(n, steps, s);
    assert SenderOk(s, k);
    var m, e := s.senders[k].final, Datagram(Encode(SeqAckMsg(SeqAckMessage(j))));
    ValidatorAcceptsConfirmation(e, m);
    if e == Confirmation(m) {
      EncodeInjective(SeqAckMsg(SeqAckMessage(j)), SeqAckMsg(SeqAckMessage(m.key)));
    }
  }

  // ----- what arrives

  /** Every Ack among these events was sent. Anything else may arrive as well: the socket
      of a client carries SeqAcks too. */
  ghost predicate AcksSent(s: System, events: seq<Event>) {
    forall a :: Datagram(Encode(AckMsg(a))) in events ==> a in s.acks
  }

  /** Every SeqAck among these events, which arrive from q, was sent by q. */
  ghost predicate SeqAcksSent(s: System, q: nat, events: seq<Event>) {
    forall k :: Datagram(Encode(SeqAckMsg(SeqAckMessage(k)))) in events ==> (q, k) in s.seqAcks
  }

  lemma ProposalWasSent(s: System, k: Key, events: seq<Event>, q: u32, x: u32)
    requires AcksSent(s, events) && Proposes(events, k, q, x)
    ensures AckMessage(k, x, q) in s.acks
  {
    var i: nat :| ProposesAt(events, k, q, x, i);
    assert events[i] in events;
  }

  lemma ConfirmationWasSent(s: System, m: SeqMessage, events: seq<Event>, q: nat)
    requires SeqAcksSent(s, q, events) && Confirms(events, m)
    ensures (q, m.key) in s.seqAcks
  {
    var i: nat :| ConfirmsAt(events, m, i);
    assert events[i] in events;
  }

  /** As long as nobody has been told, the recorded number is the only one the thread can
      make of Acks that were sent, whatever else arrives and in whatever order. */
  lemma CollectedIsFinal(n: nat, steps: seq<Step>, s: System, k: Key,
                         streams: seq<seq<Event>>, r: Option<SeqMessage>, recorded: seq<u32>)
    requires 0 < n < 0x1_0000_0000 && Executes(Init(n), steps, s) && s.Final(k)
    requires forall q :: 0 <= q < n ==> (q, k) !in s.seqAcks
    requires |streams| == n && forall q :: 0 <= q < n ==> AcksSent(s, streams[q])
    requires Collected(k, streams, r, recorded) && r.Some?
    ensures recorded == s.senders[k].acks && r.value == s.senders[k].final
  {
    FinalDominatesProposals(n, steps, s, k);
    ReachableSafe(n, steps, s);
    assert SenderOk(s, k);
    var acks, final := s.senders[k].acks, s.senders[k].final;
    forall q | 0 <= q < n ensures recorded[q] == acks[q] {
      ProposalWasSent(s, k, streams[q], q, recorded[q]);
      assert AckMessage(k, recorded[q], q).proposer == q;
    }
    assert recorded == acks;
    FinalStampUnique(acks, final.finalSeq, final.finalSeqProposer, r.value.finalSeq, r.value.finalSeqProposer);
  }

  // ----- the stages of a thread

  /** The thread of k among n processes once it has read i answers, its first n being
      these proposals. */
  ghost predicate HasStage(n: nat, recorded: seq<u32>, i: nat) {
    0 < n < 0x1_0000_0000 && |recorded| <= n && (i <= |recorded| || (|recorded| == n && i <= 2 * n))
  }

  function Stage(n: nat, k: Key, recorded: seq<u32>, i: nat): Sender
    requires HasStage(n, recorded, i)
  {
    if i < n then Collecting(recorded[..i])
    else
      var (f, p) := FinalStamp(recorded);
      Announcing(recorded, SeqMessage(k, f, p), i - n)
  }

  /** The step in which it reads the answer after those. */
  function Reading(n: nat, k: Key, recorded: seq<u32>, i: nat): Step
    requires HasStage(n, recorded, i + 1)
  {
    if i < n then ReceiveAck(AckMessage(k, recorded[i], i)) else ReceiveSeqAck(i - n, k)
  }

  function WithSender(s: System, k: Key, t: Sender): System {
    s.(senders := s.senders[k := t])
  }

  lemma ReadingAdvances(s: System, k: Key, recorded: seq<u32>, i: nat)
    requires Sized(s) && HasStage(|s.nodes|, recorded, i + 1)
    requires k in s.senders && s.senders[k] == Stage(|s.nodes|, k, recorded, i)
    requires Enabled(s, Reading(|s.nodes|, k, recorded, i))
    ensures Apply(s, Reading(|s.nodes|, k, recorded, i)) == WithSender(s, k, Stage(|s.nodes|, k, recorded, i + 1))
  {
    if i < |s.nodes| {
      assert recorded[..i] + [recorded[i]] == recorded[..i + 1];
      assert i + 1 == |s.nodes| ==> recorded[..i + 1] == recorded;
    }
  }

  // ----- the others meanwhile

  predicate NoAnswer(steps: seq<Step>, k: Key) {
    forall step | step in steps :: !IsAnswer(step, k)
  }

  /** Steps of others, of the network and of the processes lead from s to t. */
  ghost predicate Meanwhile(s: System, t: System, k: Key) {
    Sized(s) && exists steps :: Executes(s, steps, t) && NoAnswer(steps, k)
  }

  lemma {:induction false} NoAnswerKeeps(s: System, steps: seq<Step>, t: System, k: Key)
    requires Sized(s) && Executes(s, steps, t) && NoAnswer(steps, k) && k in s.senders
    ensures |t.nodes| == |s.nodes| && k in t.senders && t.senders[k] == s.senders[k]
    decreases |steps|
  {
    if steps != [] {
      assert steps[0] in steps;
      NoAnswerKeeps(Apply(s, steps[0]), steps[1..], t, k);
    }
  }

  lemma MeanwhileKeeps(s: System, t: System, k: Key)
    requires Meanwhile(s, t, k) && k in s.senders
    ensures |t.nodes| == |s.nodes| && k in t.senders && t.senders[k] == s.senders[k]
  {
    var steps :| Executes(s, steps, t) && NoAnswer(steps, k);
    NoAnswerKeeps(s, steps, t, k);
  }

  lemma NothingMeanwhile(s: System, k: Key)
    requires Sized(s)
    ensures Meanwhile(s, s, k)
  {
    assert Executes(s, [], s) && NoAnswer([], k);
  }

  lemma MeanwhileMore(s: System, t: System, k: Key, step: Step)
    requires Meanwhile(s, t, k) && Sized(t) && Enabled(t, step) && !IsAnswer(step, k)
    ensures Meanwhile(s, Apply(t, step), k)
  {
    var steps :| Executes(s, steps, t) && NoAnswer(steps, k);
    Snoc(s, steps, t, step);
    assert NoAnswer(steps + [step], k);
  }

  // ----- a thread through its moments

  /** What the thread leaves behind after reading i answers, the last of them at the moment
      before. */
  function After(s: System, k: Key, recorded: seq<u32>, moments: seq<System>, i: nat): System
    requires i <= |moments| && HasStage(|s.nodes|, recorded, i)
  {
    if i == 0 then s else WithSender(moments[i - 1], k, Stage(|s.nodes|, k, recorded, i))
  }

  /** A thread that starts in s reads one answer at each of these moments; from one to the
      next everybody else goes on as they like. */
  ghost predicate Passes(s: System, k: Key, recorded: seq<u32>, moments: seq<System>) {
    && HasStage(|s.nodes|, recorded, |moments|) && k in s.senders && s.senders[k] == Collecting([])
    && forall i :: 0 <= i < |moments| ==> PassesAt(s, k, recorded, moments, i)
  }

  ghost predicate PassesAt(s: System, k: Key, recorded: seq<u32>, moments: seq<System>, i: nat)
    requires i < |moments| && HasStage(|s.nodes|, recorded, i)
  {
    Meanwhile(After(s, k, recorded, moments, i), moments[i], k)
  }

  lemma {:induction false} MomentStage(s: System, k: Key, recorded: seq<u32>, moments: seq<System>, i: nat)
    requires Passes(s, k, recorded, moments) && i < |moments|
    ensures |moments[i].nodes| == |s.nodes| && k in moments[i].senders
    ensures moments[i].senders[k] == Stage(|s.nodes|, k, recorded, i)
  {
    if i > 0 {
      MomentStage(s, k, recorded, moments, i - 1);
    } else {
      assert recorded[..0] == [];
    }
    assert PassesAt(s, k, recorded, moments, i);
    MeanwhileKeeps(After(s, k, recorded, moments, i), moments[i], k);
  }

  /** The answers that the thread of k reads in a run. */
  function Answers(steps: seq<Step>, k: Key): seq<Step> {
    if steps == [] then []
    else Answers(steps[..|steps| - 1], k) + if IsAnswer(steps[|steps| - 1], k) then [steps[|steps| - 1]] else []
  }

  lemma {:induction false} AnswersConcat(a: seq<Step>, b: seq<Step>, k: Key)
    requires NoAnswer(b, k)
    ensures Answers(a + b, k) == Answers(a, k)
  {
    if b == [] {
      assert a + b == a;
    } else {
      assert b[|b| - 1] in b;
      assert (a + b)[..|a + b| - 1] == a + b[..|b| - 1];
      AnswersConcat(a, b[..|b| - 1], k);
    }
  }

  function Readings(n: nat, k: Key, recorded: seq<u32>, i: nat): seq<Step>
    requires HasStage(n, recorded, i)
  {
    seq(i, j requires 0 <= j < i => Reading(n, k, recorded, j))
  }

  /** One more answer read, after others have gone on. */
  lemma ReadsOneMore(s: System, steps: seq<Step>, from: System, at: System, k: Key, step: Step) returns (all: seq<Step>)
    requires Sized(s) && Executes(s, steps, from) && Meanwhile(from, at, k)
    requires Sized(at) && Enabled(at, step) && IsAnswer(step, k)
    ensures Executes(s, all, Apply(at, step)) && Answers(all, k) == Answers(steps, k) + [step]
  {
    var others :| Executes(from, others, at) && NoAnswer(others, k);
    ExecutesConcat(s, steps, from, others, at);
    AnswersConcat(steps, others, k);
    Snoc(s, steps + others, at, step);
    all := steps + others + [step];
    assert all[..|all| - 1] == steps + others;
  }

  lemma ReadingsSnoc(n: nat, k: Key, recorded: seq<u32>, i: nat)
    requires HasStage(n, recorded, i + 1)
    ensures Readings(n, k, recorded, i + 1) == Readings(n, k, recorded, i) + [Reading(n, k, recorded, i)]
  {
  }

  /** The answer can be received at the moment at which the thread reads it. */
  predicate CanRead(n: nat, k: Key, recorded: seq<u32>, at: System, i: nat)
    requires HasStage(n, recorded, i + 1)
  {
    |at.nodes| == n && Enabled(at, Reading(n, k, recorded, i))
  }

  lemma PassesOne(s: System, k: Key, recorded: seq<u32>, moments: seq<System>, i: nat, before: seq<Step>)
    returns (steps: seq<Step>)
    requires Passes(s, k, recorded, moments) && i < |moments| && CanRead(|s.nodes|, k, recorded, moments[i], i)
    requires Executes(s, before, After(s, k, recorded, moments, i))
    ensures Executes(s, steps, After(s, k, recorded, moments, i + 1))
    ensures Answers(steps, k) == Answers(before, k) + [Reading(|s.nodes|, k, recorded, i)]
  {
    assert PassesAt(s, k, recorded, moments, i);
    MomentStage(s, k, recorded, moments, i);
    ReadingAdvances(moments[i], k, recorded, i);
    steps := ReadsOneMore(s, before, After(s, k, recorded, moments, i), moments[i], k,
                          Reading(|s.nodes|, k, recorded, i));
  }

  lemma {:induction false} PassesRuns(s: System, k: Key, recorded: seq<u32>, moments: seq<System>, i: nat)
    returns (steps: seq<Step>)
    requires Passes(s, k, recorded, moments) && i <= |moments|
    requires forall j :: 0 <= j < |moments| ==> CanRead(|s.nodes|, k, recorded, moments[j], j)
    ensures Executes(s, steps, After(s, k, recorded, moments, i))
    ensures Answers(steps, k) == Readings(|s.nodes|, k, recorded, i)
  {
    if i == 0 {
      steps := [];
    } else {
      var before := PassesRuns(s, k, recorded, moments, i - 1);
      steps := PassesOne(s, k, recorded, moments, i - 1, before);
      ReadingsSnoc(|s.nodes|, k, recorded, i - 1);
    }
  }

  // ----- the thread is a run, and every run holds such a thread

  /** A whole thread: on the events that its clients see it makes the Seq message m of the
      recorded proposals and tells `told` processes, passing through these moments. What
      has arrived from a process when the thread reads its answer was sent by then. */
  ghost predicate Threads(s: System, k: Key, data: seq<seq<Event>>, seqs: seq<seq<Event>>,
                          m: SeqMessage, recorded: seq<u32>, told: nat, moments: seq<System>) {
    var n := |s.nodes|;
    && Sized(s) && |data| == n && |seqs| == n && told <= n && |moments| == n + told
    && Collected(k, data, Some(m), recorded) && Announced(m, seqs, told)
    && Passes(s, k, recorded, moments)
    && (forall q :: 0 <= q < n ==> AcksSent(moments[q], data[q]))
    && (forall q :: 0 <= q < told ==> SeqAcksSent(moments[n + q], q, seqs[q]))
  }

  lemma StageIsFinal(n: nat, k: Key, recorded: seq<u32>, m: SeqMessage, i: nat)
    requires 0 < n < 0x1_0000_0000 && |recorded| == n && n <= i <= 2 * n
    requires m.key == k && IsFinalStamp(recorded, m.finalSeq, m.finalSeqProposer)
    ensures Stage(n, k, recorded, i) == Announcing(recorded, m, i - n)
  {
    var (f, p) := FinalStamp(recorded);
    FinalStampUnique(recorded, f, p, m.finalSeq, m.finalSeqProposer);
  }

  lemma CanReadAck(n: nat, k: Key, recorded: seq<u32>, at: System, i: nat, events: seq<Event>)
    requires HasStage(n, recorded, i + 1) && i < n == |at.nodes|
    requires k in at.senders && at.senders[k] == Stage(n, k, recorded, i)
    requires AcksSent(at, events) && Proposes(events, k, i, recorded[i])
    ensures CanRead(n, k, recorded, at, i)
  {
    ProposalWasSent(at, k, events, i, recorded[i]);
  }

  lemma CanReadSeqAck(n: nat, k: Key, recorded: seq<u32>, at: System, i: nat, m: SeqMessage, events: seq<Event>)
    requires HasStage(n, recorded, i + 1) && n == |at.nodes| <= i && m.key == k
    requires k in at.senders && at.senders[k] == Stage(n, k, recorded, i)
    requires SeqAcksSent(at, i - n, events) && Confirms(events, m)
    ensures CanRead(n, k, recorded, at, i)
  {
    ConfirmationWasSent(at, m, events, i - n);
  }

  /** These events bring the answer that the thread reads at moment i. */
  ghost predicate Brings(n: nat, k: Key, m: SeqMessage, recorded: seq<u32>, at: System, i: nat, events: seq<Event>)
    requires n < 0x1_0000_0000 && |recorded| == n
  {
    if i < n then AcksSent(at, events) && Proposes(events, k, i, recorded[i])
    else SeqAcksSent(at, i - n, events) && Confirms(events, m)
  }

  lemma AnswerCanRead(s: System, k: Key, m: SeqMessage, recorded: seq<u32>, moments: seq<System>, i: nat,
                      events: seq<Event>)
    requires Passes(s, k, recorded, moments) && i < |moments| && |recorded| == |s.nodes| && m.key == k
    requires Brings(|s.nodes|, k, m, recorded, moments[i], i, events)
    ensures CanRead(|s.nodes|, k, recorded, moments[i], i)
  {
    MomentStage(s, k, recorded, moments, i);
    if i < |s.nodes| {
      CanReadAck(|s.nodes|, k, recorded, moments[i], i, events);
    } else {
      CanReadSeqAck(|s.nodes|, k, recorded, moments[i], i, m, events);
    }
  }

  lemma ThreadBrings(s: System, k: Key, data: seq<seq<Event>>, seqs: seq<seq<Event>>,
                     m: SeqMessage, recorded: seq<u32>, told: nat, moments: seq<System>, i: nat)
    requires Threads(s, k, data, seqs, m, recorded, told, moments) && i < |moments|
    ensures var n := |s.nodes|;
            Brings(n, k, m, recorded, moments[i], i, if i < n then data[i] else seqs[i - n])
  {
  }

  lemma ThreadReadsAll(s: System, k: Key, data: seq<seq<Event>>, seqs: seq<seq<Event>>,
                       m: SeqMessage, recorded: seq<u32>, told: nat, moments: seq<System>)
    requires Threads(s, k, data, seqs, m, recorded, told, moments)
    ensures forall i :: 0 <= i < |moments| ==> CanRead(|s.nodes|, k, recorded, moments[i], i)
  {
    forall i | 0 <= i < |moments| ensures CanRead(|s.nodes|, k, recorded, moments[i], i) {
      ThreadBrings(s, k, data, seqs, m, recorded, told, moments, i);
      AnswerCanRead(s, k, m, recorded, moments, i, if i < |s.nodes| then data[i] else seqs[i - |s.nodes|]);
    }
  }

  lemma PassesToEnd(s: System, k: Key, m: SeqMessage, recorded: seq<u32>, moments: seq<System>)
    returns (steps: seq<Step>, t: System)
    requires Passes(s, k, recorded, moments) && |recorded| == |s.nodes| <= |moments|
    requires m.key == k && IsFinalStamp(recorded, m.finalSeq, m.finalSeqProposer)
    requires forall i :: 0 <= i < |moments| ==> CanRead(|s.nodes|, k, recorded, moments[i], i)
    ensures Executes(s, steps, t) && Answers(steps, k) == Readings(|s.nodes|, k, recorded, |moments|)
    ensures t == WithSender(moments[|moments| - 1], k, Announcing(recorded, m, |moments| - |s.nodes|))
  {
    steps := PassesRuns(s, k, recorded, moments, |moments|);
    t := After(s, k, recorded, moments, |moments|);
    StageIsFinal(|s.nodes|, k, recorded, m, |moments|);
  }

  /** Whatever a thread makes of the answers that reach it is a run of the system, with the
      same record, the same Seq message and the same processes told, in which the thread's
      own answers are received one by one in order. */
  lemma ThreadIsRun(s: System, k: Key, data: seq<seq<Event>>, seqs: seq<seq<Event>>,
                    m: SeqMessage, recorded: seq<u32>, told: nat, moments: seq<System>)
    returns (steps: seq<Step>, t: System)
    requires Threads(s, k, data, seqs, m, recorded, told, moments)
    ensures Executes(s, steps, t) && Answers(steps, k) == Readings(|s.nodes|, k, recorded, |moments|)
    ensures t == WithSender(moments[|moments| - 1], k, Announcing(recorded, m, told))
  {
    ThreadReadsAll(s, k, data, seqs, m, recorded, told, moments);
    steps, t := PassesToEnd(s, k, m, recorded, moments);
  }

  // ----- the history of a sender

  /** The thread of k started in s0, has read its answers at these moments, and the others
      have gone on to s since. */
  ghost predicate Came(s0: System, moments: seq<System>, s: System, k: Key) {
    && k in s.senders && |s.nodes| == |s0.nodes|
    && var n, recorded := |s0.nodes|, s.senders[k].acks;
       && Passes(s0, k, recorded, moments) && s.senders[k] == Stage(n, k, recorded, |moments|)
       && (forall i :: 0 <= i < |moments| ==> CanRead(n, k, recorded, moments[i], i))
       && Meanwhile(After(s0, k, recorded, moments, |moments|), s, k)
  }

  lemma CameJust(s: System, k: Key)
    requires Sized(s) && k in s.senders && s.senders[k] == Collecting([])
    ensures Came(s, [], s, k)
  {
    NothingMeanwhile(s, k);
  }

  lemma CameWithOther(s0: System, moments: seq<System>, s: System, k: Key, step: Step)
    requires Came(s0, moments, s, k) && Sized(s) && Enabled(s, step) && !IsAnswer(step, k)
    ensures Came(s0, moments, Apply(s, step), k)
  {
    MeanwhileMore(After(s0, k, s.senders[k].acks, moments, |moments|), s, k, step);
  }

  /** Moments passed so far do not depend on the proposals still to come. */
  lemma PassesWithMore(s0: System, k: Key, recorded: seq<u32>, moments: seq<System>, x: u32)
    requires Passes(s0, k, recorded, moments) && |moments| == |recorded| < |s0.nodes|
    requires forall i :: 0 <= i < |moments| ==> CanRead(|s0.nodes|, k, recorded, moments[i], i)
    ensures Passes(s0, k, recorded + [x], moments)
    ensures forall i :: 0 <= i < |moments| ==> CanRead(|s0.nodes|, k, recorded + [x], moments[i], i)
    ensures After(s0, k, recorded + [x], moments, |moments|) == After(s0, k, recorded, moments, |moments|)
    ensures Stage(|s0.nodes|, k, recorded + [x], |moments|) == Stage(|s0.nodes|, k, recorded, |moments|)
  {
    var more, n := recorded + [x], |s0.nodes|;
    assert forall i :: 0 <= i <= |recorded| ==> more[..i] == recorded[..i];
    forall i | 0 <= i < |moments| ensures PassesAt(s0, k, more, moments, i) && CanRead(n, k, more, moments[i], i) {
      assert PassesAt(s0, k, recorded, moments, i) && CanRead(n, k, recorded, moments[i], i);
    }
  }

  /** One more moment, at which the thread reads. */
  lemma PassesSnoc(s0: System, k: Key, recorded: seq<u32>, moments: seq<System>, s: System)
    requires Passes(s0, k, recorded, moments) && HasStage(|s0.nodes|, recorded, |moments| + 1)
    requires forall i :: 0 <= i < |moments| ==> CanRead(|s0.nodes|, k, recorded, moments[i], i)
    requires CanRead(|s0.nodes|, k, recorded, s, |moments|)
    requires Meanwhile(After(s0, k, recorded, moments, |moments|), s, k)
    ensures Passes(s0, k, recorded, moments + [s])
    ensures forall i :: 0 <= i <= |moments| ==> CanRead(|s0.nodes|, k, recorded, (moments + [s])[i], i)
  {
    var all := moments + [s];
    forall i | 0 <= i < |all| ensures PassesAt(s0, k, recorded, all, i) {
      assert After(s0, k, recorded, all, i) == After(s0, k, recorded, moments, i);
      assert i < |moments| ==> PassesAt(s0, k, recorded, moments, i);
    }
  }

  lemma CameByAnswer(s0: System, moments: seq<System>, s: System, k: Key, recorded: seq<u32>, step: Step)
    requires Sized(s) && k in s.senders && |s.nodes| == |s0.nodes|
    requires Passes(s0, k, recorded, moments) && HasStage(|s0.nodes|, recorded, |moments| + 1)
    requires forall i :: 0 <= i < |moments| ==> CanRead(|s0.nodes|, k, recorded, moments[i], i)
    requires s.senders[k] == Stage(|s0.nodes|, k, recorded, |moments|)
    requires Meanwhile(After(s0, k, recorded, moments, |moments|), s, k)
    requires Enabled(s, step) && step == Reading(|s0.nodes|, k, recorded, |moments|)
    requires Stage(|s0.nodes|, k, recorded, |moments| + 1).acks == recorded
    ensures Came(s0, moments + [s], Apply(s, step), k)
  {
    var t := Apply(s, step);
    PassesSnoc(s0, k, recorded, moments, s);
    ReadingAdvances(s, k, recorded, |moments|);
    assert After(s0, k, recorded, moments + [s], |moments| + 1) == t;
    NothingMeanwhile(t, k);
  }

  lemma CameWithAnswer(s0: System, moments: seq<System>, s: System, k: Key, step: Step)
    requires Came(s0, moments, s, k) && Sized(s) && Enabled(s, step) && IsAnswer(step, k)
    ensures Came(s0, moments + [s], Apply(s, step), k)
  {
    var n, acks := |s0.nodes|, s.senders[k].acks;
    match step
    case ReceiveAck(a) =>
      assert acks[..|acks|] == acks;
      PassesWithMore(s0, k, acks, moments, a.proposedSeq);
      assert (acks + [a.proposedSeq])[..|acks| + 1] == acks + [a.proposedSeq];
      CameByAnswer(s0, moments, s, k, acks + [a.proposedSeq], step);
    case ReceiveSeqAck(q, _) =>
      CameByAnswer(s0, moments, s, k, acks, step);
  }

  lemma {:induction false} History(n: nat, steps: seq<Step>, s: System, k: Key)
    returns (before: seq<Step>, s0: System, moments: seq<System>)
    requires 0 < n < 0x1_0000_0000 && Executes(Init(n), steps, s) && k in s.senders
    ensures Executes(Init(n), before, s0) && Came(s0, moments, s, k)
    decreases |steps|
  {
    if steps != [] {
      var step := steps[|steps| - 1];
      var mid := Unsnoc(Init(n), steps, s);
      if k !in mid.senders {
        before, s0, moments := steps, s, [];
        CameJust(s, k);
      } else {
        before, s0, moments := History(n, steps[..|steps| - 1], mid, k);
        if IsAnswer(step, k) {
          CameWithAnswer(s0, moments, mid, k, step);
          moments := moments + [mid];
        } else {
          CameWithOther(s0, moments, mid, k, step);
        }
      }
    }
  }

  /** What arrives at the clients of a thread whose answers are these, and nothing else. */
  function DataStreams(k: Key, recorded: seq<u32>): seq<seq<Event>>
    requires |recorded| < 0x1_0000_0000
  {
    seq(|recorded|, q requires 0 <= q < |recorded| => [AckEvent(k, q, recorded[q])])
  }

  function SeqStreams(m: SeqMessage, n: nat, told: nat): seq<seq<Event>> {
    seq(n, q => if q < told then [Confirmation(m)] else [])
  }

  lemma DataStreamsCollect(k: Key, recorded: seq<u32>, m: SeqMessage)
    requires 0 < |recorded| < 0x1_0000_0000
    requires m.key == k && IsFinalStamp(recorded, m.finalSeq, m.finalSeqProposer)
    ensures Collected(k, DataStreams(k, recorded), Some(m), recorded)
  {
    var data := DataStreams(k, recorded);
    forall q | 0 <= q < |data| ensures Proposes(data[q], k, q, recorded[q]) {
      assert ProposesAt(data[q], k, q, recorded[q], 0);
    }
  }

  lemma SeqStreamsAnnounce(m: SeqMessage, n: nat, told: nat)
    requires told <= n
    ensures Announced(m, SeqStreams(m, n, told), told)
  {
    var seqs := SeqStreams(m, n, told);
    forall q | 0 <= q < told ensures Confirms(seqs[q], m) {
      assert ConfirmsAt(seqs[q], m, 0);
    }
  }

  lemma OnlyAckSent(s: System, k: Key, q: u32, x: u32)
    requires AckMessage(k, x, q) in s.acks
    ensures AcksSent(s, [AckEvent(k, q, x)])
  {
    forall a | Datagram(Encode(AckMsg(a))) in [AckEvent(k, q, x)] ensures a in s.acks {
      EncodeInjective(AckMsg(a), AckMsg(AckMessage(k, x, q)));
    }
  }

  lemma OnlySeqAckSent(s: System, m: SeqMessage, q: nat)
    requires (q, m.key) in s.seqAcks
    ensures SeqAcksSent(s, q, [Confirmation(m)])
  {
    forall j | Datagram(Encode(SeqAckMsg(SeqAckMessage(j)))) in [Confirmation(m)] ensures (q, j) in s.seqAcks {
      EncodeInjective(SeqAckMsg(SeqAckMessage(j)), SeqAckMsg(SeqAckMessage(m.key)));
    }
  }

  lemma StreamsSent(n: nat, k: Key, m: SeqMessage, recorded: seq<u32>, told: nat, moments: seq<System>)
    requires 0 < n < 0x1_0000_0000 && |recorded| == n && told <= n && |moments| == n + told && m.key == k
    requires forall i :: 0 <= i < |moments| ==> CanRead(n, k, recorded, moments[i], i)
    ensures forall q :: 0 <= q < n ==> AcksSent(moments[q], DataStreams(k, recorded)[q])
    ensures forall q :: 0 <= q < told ==> SeqAcksSent(moments[n + q], q, SeqStreams(m, n, told)[q])
  {
    forall q | 0 <= q < n ensures AcksSent(moments[q], DataStreams(k, recorded)[q]) {
      assert CanRead(n, k, recorded, moments[q], q);
      OnlyAckSent(moments[q], k, q, recorded[q]);
    }
    forall q | 0 <= q < told ensures SeqAcksSent(moments[n + q], q, SeqStreams(m, n, told)[q]) {
      assert CanRead(n, k, recorded, moments[n + q], n + q);
      OnlySeqAckSent(moments[n + q], m, q);
    }
  }

  /** A sender with its final number. */
  predicate Finished(n: nat, k: Key, t: Sender) {
    t.Announcing? && t.final.key == k && 0 < n < 0x1_0000_0000 && |t.acks| == n && t.next <= n
  }

  lemma FinalFinished(n: nat, steps: seq<Step>, s: System, k: Key)
    requires 0 < n < 0x1_0000_0000 && Executes(Init(n), steps, s) && s.Final(k)
    ensures |s.nodes| == n && Finished(n, k, s.senders[k])
  {
    ReachableSafe(n, steps, s);
    assert SenderOk(s, k);
  }

  lemma CamePassed(n: nat, s0: System, moments: seq<System>, s: System, k: Key)
    requires Came(s0, moments, s, k) && |s.nodes| == n && Finished(n, k, s.senders[k])
    ensures var t := s.senders[k];
            && |moments| == n + t.next && Passes(s0, k, t.acks, moments)
            && (forall i :: 0 <= i < |moments| ==> CanRead(n, k, t.acks, moments[i], i))
            && IsFinalStamp(t.acks, t.final.finalSeq, t.final.finalSeqProposer)
            && Meanwhile(WithSender(moments[|moments| - 1], k, t), s, k)
  {
  }

  lemma PassedIsThread(n: nat, s0: System, k: Key, m: SeqMessage, recorded: seq<u32>, told: nat, moments: seq<System>)
    requires Passes(s0, k, recorded, moments) && |s0.nodes| == |recorded| == n && |moments| == n + told
    requires m.key == k && IsFinalStamp(recorded, m.finalSeq, m.finalSeqProposer)
    requires forall i :: 0 <= i < |moments| ==> CanRead(n, k, recorded, moments[i], i)
    ensures Threads(s0, k, DataStreams(k, recorded), SeqStreams(m, n, told), m, recorded, told, moments)
  {
    DataStreamsCollect(k, recorded, m);
    SeqStreamsAnnounce(m, n, told);
    StreamsSent(n, k, m, recorded, told, moments);
  }

  /** Every sender in the system that has its final number is such a thread: it started in
      a reachable state, read at these moments the Acks it has recorded and the SeqAcks of
      those it has told, made of them its Seq message, and others have gone on since. */
  lemma RunIsThread(n: nat, steps: seq<Step>, s: System, k: Key)
    returns (before: seq<Step>, s0: System, moments: seq<System>)
    requires 0 < n < 0x1_0000_0000 && Executes(Init(n), steps, s) && s.Final(k)
    ensures Executes(Init(n), before, s0) && |s.senders[k].acks| == n && |moments| == n + s.senders[k].next
    ensures var t := s.senders[k];
            && Threads(s0, k, DataStreams(k, t.acks), SeqStreams(t.final, n, t.next), t.final, t.acks, t.next, moments)
            && Meanwhile(WithSender(moments[|moments| - 1], k, t), s, k)
  {
    FinalFinished(n, steps, s, k);
    before, s0, moments := History(n, steps, s, k);
    CamePassed(n, s0, moments, s, k);
    var t := s.senders[k];
    PassedIsThread(n, s0, k, t.final, t.acks, t.next, moments);
  }
}
