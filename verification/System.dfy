/** The whole system over an arbitrary network (called ANY below): every datagram ever
    sent may be received any number of times, in any order, or never.

    A handler runs to completion inside the single listening loop of its process, so one
    datagram received is one step. A sender thread is the record of how far it has got. */
module TotalOrder {
  import opened Wire
  import opened Ordering
  import opened HoldBack
  import opened Processes
  import opened Senders

  /** A process and the messages it has handed to its deliver callback, oldest first. */
  datatype Node = Node(proc: ProcState, log: seq<SeqMessage>)

  /** A sender thread: it asks process |acks| for a proposal; or it has fixed the final
      number and tells it to process next. */
  datatype Sender =
    | Collecting(acks: seq<u32>)
    | Announcing(acks: seq<u32>, final: SeqMessage, next: nat)

  /** The four sets hold every datagram ever sent. A Data or Seq datagram is paired with
      its destination, a SeqAck with its source; the payload of Data is not modelled. */
  datatype System = System(
    nodes: seq<Node>,
    senders: map<Key, Sender>,
    data: set<(nat, Key)>,
    acks: set<AckMessage>,
    seqs: set<(nat, SeqMessage)>,
    seqAcks: set<(nat, Key)>)
  {
    function Pending(q: nat): map<Key, Proposal>
      requires q < |nodes|
    {
      nodes[q].proc.queue.pending
    }

    function Held(q: nat): seq<Entry>
      requires q < |nodes|
    {
      nodes[q].proc.queue.ordering
    }

    predicate Final(k: Key) {
      k in senders && senders[k].Announcing?
    }
  }

  /** Process ids and the length of the host list are unsigned 32-bit numbers. */
  predicate Sized(s: System) {
    0 < |s.nodes| < 0x1_0000_0000
  }

  function Init(n: nat): (s: System)
    requires 0 < n < 0x1_0000_0000
    ensures |s.nodes| == n
  {
    System(seq(n, _ => Node(FRESH, [])), map[], {}, {}, {}, {})
  }

  datatype Step =
    | Launch(k: Key)
    | SendData(k: Key)
    | ReceiveData(q: nat, k: Key)
    | ReceiveAck(a: AckMessage)
    | SendSeq(k: Key)
    | ReceiveSeq(q: nat, m: SeqMessage)
    | ReceiveSeqAck(q: nat, k: Key)

  predicate Asking(s: System, k: Key) {
    k in s.senders && s.senders[k].Collecting? && |s.senders[k].acks| < |s.nodes|
  }

  predicate Enabled(s: System, step: Step)
    requires Sized(s)
  {
    match step
    case Launch(k) => k.sender < |s.nodes| && k !in s.senders
    case SendData(k) => Asking(s, k)
    case ReceiveData(q, k) => (q, k) in s.data && q < |s.nodes|
    case ReceiveAck(a) =>
      a in s.acks && Asking(s, a.key) && a.proposer == |s.senders[a.key].acks|
    case SendSeq(k) => s.Final(k) && s.senders[k].next < |s.nodes|
    case ReceiveSeq(q, m) => (q, m) in s.seqs && q < |s.nodes|
    case ReceiveSeqAck(q, k) => (q, k) in s.seqAcks && s.Final(k) && s.senders[k].next == q < |s.nodes|
  }

  /** A proposal recorded; once the last is in, the final number is fixed. */
  function Record(n: nat, k: Key, acks: seq<u32>): Sender
    requires 0 < |acks| < 0x1_0000_0000
  {
    if |acks| < n then Collecting(acks)
    else
      var (f, p) := FinalStamp(acks);
      Announcing(acks, SeqMessage(k, f, p), 0)
  }

  function Apply(s: System, step: Step): (s': System)
    requires Sized(s) && Enabled(s, step)
    ensures |s'.nodes| == |s.nodes|
  {
    match step
    case Launch(k) => s.(senders := s.senders[k := Collecting([])])
    case SendData(k) => s.(data := s.data + {(|s.senders[k].acks|, k)})
    case ReceiveData(q, k) =>
      var (p, ack) := HandleData(s.nodes[q].proc, q, k);
      s.(nodes := s.nodes[q := s.nodes[q].(proc := p)], acks := s.acks + {ack})
    case ReceiveAck(a) =>
      var acks := s.senders[a.key].acks + [a.proposedSeq];
      s.(senders := s.senders[a.key := Record(|s.nodes|, a.key, acks)])
    case SendSeq(k) => s.(seqs := s.seqs + {(s.senders[k].next, s.senders[k].final)})
    case ReceiveSeq(q, m) =>
      var (p, out) := HandleSeq(s.nodes[q].proc, m);
      s.(nodes := s.nodes[q := Node(p, s.nodes[q].log + out)], seqAcks := s.seqAcks + {(q, m.key)})
    case ReceiveSeqAck(q, k) =>
      s.(senders := s.senders[k := s.senders[k].(next := q + 1)])
  }

  /** A finite run from s to t. */
  ghost predicate Executes(s: System, steps: seq<Step>, t: System): (b: bool)
    requires Sized(s)
    ensures b ==> |t.nodes| == |s.nodes|
    decreases |steps|
  {
    if steps == [] then s == t
    else Enabled(s, steps[0]) && Executes(Apply(s, steps[0]), steps[1..], t)
  }

  /** The step in which a process's counter wraps: it accepts a message afresh with the
      counter at its largest value. */
  predicate Wraps(s: System, step: Step) {
    && step.ReceiveData? && step.q < |s.nodes| && step.k !in s.Pending(step.q)
    && s.nodes[step.q].proc.counter == 0xFFFF_FFFF
  }

  /** Some step of the run wraps a counter. */
  ghost predicate WrapsAlong(s: System, steps: seq<Step>)
    requires Sized(s)
    decreases |steps|
  {
    && steps != [] && Enabled(s, steps[0])
    && (Wraps(s, steps[0]) || WrapsAlong(Apply(s, steps[0]), steps[1..]))
  }

  /** n processes reach s in a run that wraps no counter. */
  ghost predicate Reaches(n: nat, steps: seq<Step>, s: System) {
    0 < n < 0x1_0000_0000 && Executes(Init(n), steps, s) && !WrapsAlong(Init(n), steps)
  }

  /** The step brings the sender of k an answer. */
  predicate IsAnswer(step: Step, k: Key) {
    (step.ReceiveAck? && step.a.key == k) || (step.ReceiveSeqAck? && step.k == k)
  }

  /** How many acknowledgements a sender has had, of both kinds. */
  function Progress(n: nat, t: Sender): nat {
    match t
    case Collecting(acks) => |acks|
    case Announcing(_, _, next) => n + next
  }

  // ----- runs put together and taken apart

  lemma {:induction false} Snoc(s: System, steps: seq<Step>, t: System, step: Step)
    requires Sized(s) && Executes(s, steps, t) && Enabled(t, step)
    ensures Executes(s, steps + [step], Apply(t, step))
    ensures WrapsAlong(s, steps + [step]) <==> WrapsAlong(s, steps) || Wraps(t, step)
    decreases |steps|
  {
    if steps == [] {
      assert steps + [step] == [step];
      assert Executes(Apply(t, step), [], Apply(t, step));
      assert [step][1..] == [];
    } else {
      Snoc(Apply(s, steps[0]), steps[1..], t, step);
      assert (steps + [step])[0] == steps[0] && (steps + [step])[1..] == steps[1..] + [step];
    }
  }

  lemma {:induction false} Unsnoc(s: System, steps: seq<Step>, t: System) returns (mid: System)
    requires Sized(s) && Executes(s, steps, t) && steps != []
    ensures |mid.nodes| == |s.nodes| && Executes(s, steps[..|steps| - 1], mid)
    ensures Enabled(mid, steps[|steps| - 1]) && t == Apply(mid, steps[|steps| - 1])
    decreases |steps|
  {
    if |steps| == 1 {
      mid := s;
    } else {
      mid := Unsnoc(Apply(s, steps[0]), steps[1..], t);
      assert steps[..|steps| - 1][1..] == steps[1..][..|steps| - 2];
    }
  }

  lemma ExecutesCons(s: System, a: seq<Step>, b: seq<Step>, u: System)
    requires Sized(s) && a != [] && Enabled(s, a[0]) && Executes(Apply(s, a[0]), a[1..] + b, u)
    ensures Executes(s, a + b, u)
  {
    assert (a + b)[0] == a[0] && (a + b)[1..] == a[1..] + b;
  }

  lemma {:induction false} ExecutesConcat(s: System, a: seq<Step>, t: System, b: seq<Step>, u: System)
    requires Sized(s) && Executes(s, a, t) && Executes(t, b, u)
    ensures Executes(s, a + b, u)
    decreases |a|
  {
    if a == [] {
      assert a + b == b;
    } else {
      ExecutesConcat(Apply(s, a[0]), a[1..], t, b, u);
      ExecutesCons(s, a, b, u);
    }
  }
}
