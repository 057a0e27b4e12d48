/** The same system over ordered links (called FIFO below). Every ordered pair of
    processes has one link, shared by all sender threads of the source as they share one
    socket. A sender may put any number of copies on a link, each acknowledged process
    moves it on, any copy may be lost, and the copy at the head may be received more than
    once; but copies do not overtake each other. Acks and SeqAcks travel as before, in any
    order. */
module FifoNetwork {
  import opened Wire
  import opened TotalOrder
  import opened Safety
  import opened Invariant
  import opened Theorems

  datatype Packet = DataPacket(key: Key) | SeqPacket(msg: SeqMessage)

  type Link = (nat, nat)

  datatype Fifo = Fifo(sys: System, links: map<Link, seq<Packet>>) {
    function On(l: Link): seq<Packet> {
      if l in links then links[l] else []
    }
  }

  datatype FStep =
    | Local(step: Step)             // Launch, ReceiveAck or ReceiveSeqAck
    | Transmit(k: Key)              // the sender of k puts one more copy on its current link
    | Take(l: Link, keep: bool)     // receive the head, which stays if it is duplicated
    | Lose(l: Link, i: nat)

  predicate IsLocal(step: Step) {
    step.Launch? || step.ReceiveAck? || step.ReceiveSeqAck?
  }

  function Reception(l: Link, p: Packet): Step {
    match p
    case DataPacket(k) => ReceiveData(l.1, k)
    case SeqPacket(m) => ReceiveSeq(l.1, m)
  }

  predicate Sending(s: System, k: Key) {
    Asking(s, k) || (s.Final(k) && s.senders[k].next < |s.nodes|)
  }

  /** The copy that the sender of k puts out next, and the link it goes on. */
  function Outgoing(s: System, k: Key): (Link, Packet)
    requires Sending(s, k)
  {
    if Asking(s, k) then ((k.sender, |s.senders[k].acks|), DataPacket(k))
    else ((k.sender, s.senders[k].next), SeqPacket(s.senders[k].final))
  }

  /** The sender of k has p to put on link l. */
  predicate SendsOn(s: System, k: Key, l: Link, p: Packet) {
    Sending(s, k) && Outgoing(s, k) == (l, p)
  }

  /** The step of the unordered system that a step amounts to. */
  function Projects(f: Fifo, step: FStep): Option<Step>
    requires Sized(f.sys)
  {
    match step
    case Local(st) => Some(st)
    case Transmit(k) => Some(if Asking(f.sys, k) then SendData(k) else SendSeq(k))
    case Take(l, _) => if f.On(l) == [] then None else Some(Reception(l, f.On(l)[0]))
    case Lose(_, _) => None
  }

  predicate FEnabled(f: Fifo, step: FStep)
    requires Sized(f.sys)
  {
    && (match step
        case Local(st) => IsLocal(st)
        case Transmit(k) => Sending(f.sys, k)
        case Take(l, _) => f.On(l) != []
        case Lose(l, i) => i < |f.On(l)|)
    && (Projects(f, step).Some? ==> Enabled(f.sys, Projects(f, step).value))
  }

  function FApply(f: Fifo, step: FStep): (g: Fifo)
    requires Sized(f.sys) && FEnabled(f, step)
    ensures |g.sys.nodes| == |f.sys.nodes|
    ensures g.sys == if Projects(f, step).Some? then Apply(f.sys, Projects(f, step).value) else f.sys
  {
    match step
    case Local(st) => f.(sys := Apply(f.sys, st))
    case Transmit(k) =>
      var l, p := Outgoing(f.sys, k).0, Outgoing(f.sys, k).1;
      Fifo(Apply(f.sys, Projects(f, step).value), f.links[l := f.On(l) + [p]])
    case Take(l, keep) =>
      Fifo(Apply(f.sys, Reception(l, f.On(l)[0])), if keep then f.links else f.links[l := f.On(l)[1..]])
    case Lose(l, i) => f.(links := f.links[l := f.On(l)[..i] + f.On(l)[i + 1..]])
  }

  function FInit(n: nat): (f: Fifo)
    requires 0 < n < 0x1_0000_0000
    ensures |f.sys.nodes| == n
  {
    Fifo(Init(n), map[])
  }

  ghost predicate FExecutes(f: Fifo, steps: seq<FStep>, g: Fifo): (b: bool)
    requires Sized(f.sys)
    ensures b ==> |g.sys.nodes| == |f.sys.nodes|
    decreases |steps|
  {
    if steps == [] then f == g
    else FEnabled(f, steps[0]) && FExecutes(FApply(f, steps[0]), steps[1..], g)
  }

  /** The step wraps a counter, and some step of the run does. */
  predicate FWraps(f: Fifo, step: FStep)
    requires Sized(f.sys)
  {
    Projects(f, step).Some? && Wraps(f.sys, Projects(f, step).value)
  }

  ghost predicate FWrapsAlong(f: Fifo, steps: seq<FStep>)
    requires Sized(f.sys)
    decreases |steps|
  {
    && steps != [] && FEnabled(f, steps[0])
    && (FWraps(f, steps[0]) || FWrapsAlong(FApply(f, steps[0]), steps[1..]))
  }

  /** Every run over ordered links is a run over the arbitrary network, and wraps a counter
      exactly when that one does. */
  lemma {:induction false} FifoRefinesAny(f: Fifo, steps: seq<FStep>, g: Fifo) returns (base: seq<Step>)
    requires Sized(f.sys) && FExecutes(f, steps, g)
    ensures Executes(f.sys, base, g.sys)
    ensures WrapsAlong(f.sys, base) <==> FWrapsAlong(f, steps)
    decreases |steps|
  {
    if steps == [] {
      base := [];
    } else {
      var rest := FifoRefinesAny(FApply(f, steps[0]), steps[1..], g);
      var p := Projects(f, steps[0]);
      if p.Some? {
        base := [p.value] + rest;
        assert base[1..] == rest;
      } else {
        base := rest;
      }
    }
  }

  lemma FStepLaunches(f: Fifo, step: FStep, k: Key)
    requires Sized(f.sys) && FEnabled(f, step)
    ensures k in FApply(f, step).sys.senders <==> k in f.sys.senders || step == Local(Launch(k))
  {
  }

  lemma {:induction false} FRunLaunches(f: Fifo, steps: seq<FStep>, g: Fifo, k: Key)
    requires Sized(f.sys) && FExecutes(f, steps, g)
    ensures k in g.sys.senders <==> k in f.sys.senders || Local(Launch(k)) in steps
    decreases |steps|
  {
    if steps != [] {
      assert steps == [steps[0]] + steps[1..];
      FStepLaunches(f, steps[0], k);
      FRunLaunches(FApply(f, steps[0]), steps[1..], g, k);
    }
  }

  /** The messages of the system are exactly those that the run launched. */
  lemma FLaunchedExactly(n: nat, steps: seq<FStep>, f: Fifo, k: Key)
    requires 0 < n < 0x1_0000_0000 && FExecutes(FInit(n), steps, f)
    ensures k in f.sys.senders <==> Local(Launch(k)) in steps
  {
    FRunLaunches(FInit(n), steps, f, k);
  }

  // ----- the invariant over ordered links

  /** A copy on a link was sent on it; a Data copy is of a message not yet sequenced at
      the far end. */
  ghost predicate PacketOk(s: System, l: Link, p: Packet) {
    match p
    case DataPacket(k) => k.sender == l.0 && (l.1, k) in s.data && (l.1, k) !in s.seqAcks
    case SeqPacket(m) => m.key.sender == l.0 && (l.1, m) in s.seqs
  }

  /** No Data copy behind a Seq copy of the same message. */
  ghost predicate DataFirst(ps: seq<Packet>) {
    forall i, j :: 0 <= i < j < |ps| && ps[i].SeqPacket? ==> ps[j] != DataPacket(ps[i].msg.key)
  }

  ghost predicate LinkOk(s: System, l: Link, ps: seq<Packet>) {
    DataFirst(ps) && forall p :: p in ps ==> PacketOk(s, l, p)
  }

  ghost predicate NoneLate(s: System) {
    forall q, k :: 0 <= q < |s.nodes| && k in s.Pending(q) ==> (q, k) !in s.seqAcks
  }

  ghost predicate OneAckEach(acks: set<AckMessage>) {
    forall a, b :: a in acks && b in acks && a.key == b.key && a.proposer == b.proposer ==> a == b
  }

  /** What every run over ordered links keeps, whether or not a counter wraps. */
  ghost predicate FSafe(f: Fifo) {
    && Safe(f.sys)
    && (forall l :: LinkOk(f.sys, l, f.On(l)))
    && NoneLate(f.sys)
    && OneAckEach(f.sys.acks)
    && (forall q {:trigger Once(f.sys.nodes[q])} :: 0 <= q < |f.sys.nodes| ==> Once(f.sys.nodes[q]))
  }

  ghost predicate FGood(f: Fifo) {
    FSafe(f) && Good(f.sys)
  }

  /** Fewer than 2^32 pairs of a process and a launched message. */
  predicate Bounded(f: Fifo) {
    |f.sys.nodes| * |f.sys.senders| < 0x1_0000_0000
  }

  /** The proposals of the last of n processes, and those of the others. */
  lemma SplitAcks(acks: set<AckMessage>, n: nat) returns (rest: set<AckMessage>, last: set<AckMessage>)
    requires n > 0 && forall a :: a in acks ==> a.proposer < n
    ensures rest <= acks && last <= acks && |acks| == |rest| + |last|
    ensures forall a :: a in rest ==> a.proposer < n - 1
    ensures forall a :: a in last ==> a.proposer == n - 1
  {
    last := set a | a in acks && a.proposer == n - 1;
    rest := acks - last;
    assert acks == rest + last;
  }

  lemma MulStep(n: nat, c: nat, r: nat, l: nat)
    requires n > 0 && r <= (n - 1) * c && l <= c
    ensures r + l <= n * c
  {
    assert n * c == (n - 1) * c + c;
  }

  lemma {:induction false} CountAcks(acks: set<AckMessage>, keys: set<Key>, n: nat)
    requires OneAckEach(acks) && forall a :: a in acks ==> a.key in keys && a.proposer < n
    ensures |acks| <= n * |keys|
    decreases n
  {
    if n == 0 {
      assert acks == {};
    } else {
      var rest, last := SplitAcks(acks, n);
      CountAcks(rest, keys, n - 1);
      CountKeys(last, keys);
      MulStep(n, |keys|, |rest|, |last|);
    }
  }

  lemma {:induction false} CountKeys(acks: set<AckMessage>, keys: set<Key>)
    requires forall a :: a in acks ==> a.key in keys
    requires forall a, b :: a in acks && b in acks && a.key == b.key ==> a == b
    ensures |acks| <= |keys|
  {
    if a :| a in acks {
      CountKeys(acks - {a}, keys - {a.key});
    }
  }

  lemma FInitGood(n: nat)
    requires 0 < n < 0x1_0000_0000
    ensures FGood(FInit(n))
  {
    InitGood(n);
  }

  // ----- links

  /** Links keep their property while nothing new is acknowledged as sequenced. */
  lemma LinkStays(s: System, t: System, l: Link, ps: seq<Packet>)
    requires LinkOk(s, l, ps) && s.data <= t.data && s.seqs <= t.seqs && t.seqAcks == s.seqAcks
    ensures LinkOk(t, l, ps)
  {
  }

  lemma PushData(s: System, l: Link, ps: seq<Packet>, k: Key)
    requires Safe(s) && LinkOk(s, l, ps) && Asking(s, k) && k.sender == l.0 && (l.1, k) in s.data
    ensures LinkOk(s, l, ps + [DataPacket(k)])
  {
    assert (l.1, k) in s.seqAcks ==> SeqAckOk(s, l.1, k);
    forall i | 0 <= i < |ps| && ps[i].SeqPacket? ensures ps[i].msg.key != k {
      assert ps[i] in ps && PacketOk(s, l, ps[i]);
      assert SeqOk(s, l.1, ps[i].msg);
    }
  }

  lemma PushSeq(s: System, l: Link, ps: seq<Packet>, m: SeqMessage)
    requires LinkOk(s, l, ps) && m.key.sender == l.0 && (l.1, m) in s.seqs
    ensures LinkOk(s, l, ps + [SeqPacket(m)])
  {
  }

  lemma DropOne(s: System, l: Link, ps: seq<Packet>, i: nat)
    requires LinkOk(s, l, ps) && i < |ps|
    ensures LinkOk(s, l, ps[..i] + ps[i + 1..])
  {
  }

  /** Once the Seq at the head of a link is taken, nothing on any link brings Data of its
      message to that process any more. */
  lemma LinkAfterSeq(s: System, t: System, l: Link, ps: seq<Packet>, h: Link, m: SeqMessage)
    requires LinkOk(s, l, ps) && s.data <= t.data && s.seqs <= t.seqs
    requires t.seqAcks == s.seqAcks + {(h.1, m.key)} && m.key.sender == h.0
    requires l == h ==> ps != [] && ps[0] == SeqPacket(m)
    ensures LinkOk(t, l, ps)
  {
  }

  // ----- one lemma per kind of step

  lemma OnceKept(s: System, step: Step)
    requires Safe(s) && Enabled(s, step) && NoneLate(s)
    requires forall q {:trigger Once(s.nodes[q])} :: 0 <= q < |s.nodes| ==> Once(s.nodes[q])
    ensures forall q {:trigger Once(Apply(s, step).nodes[q])} :: 0 <= q < |s.nodes| ==> Once(Apply(s, step).nodes[q])
  {
    forall q | 0 <= q < |s.nodes| ensures Once(Apply(s, step).nodes[q]) {
      assert forall k :: !Late(s, q, k);
      StepOnce(s, step, q);
    }
  }

  lemma LocalSafe(f: Fifo, step: Step)
    requires FSafe(f) && FEnabled(f, Local(step))
    ensures FSafe(FApply(f, Local(step)))
  {
    var g := FApply(f, Local(step));
    StepExtends(f.sys, step);
    StepSafe(f.sys, step);
    OnceKept(f.sys, step);
    forall l ensures LinkOk(g.sys, l, g.On(l)) {
      assert g.On(l) == f.On(l);
      LinkStays(f.sys, g.sys, l, f.On(l));
    }
  }

  lemma TransmitLinks(f: Fifo, k: Key)
    requires FSafe(f) && FEnabled(f, Transmit(k)) && Safe(FApply(f, Transmit(k)).sys)
    ensures var g := FApply(f, Transmit(k)); forall l :: LinkOk(g.sys, l, g.On(l))
  {
    var g := FApply(f, Transmit(k));
    assert SenderOk(f.sys, k);
    forall l ensures LinkOk(g.sys, l, g.On(l)) {
      LinkStays(f.sys, g.sys, l, f.On(l));
      if l == Outgoing(f.sys, k).0 {
        if Asking(f.sys, k) {
          PushData(g.sys, l, f.On(l), k);
        } else {
          PushSeq(g.sys, l, f.On(l), f.sys.senders[k].final);
        }
      }
    }
  }

  lemma TransmitSafe(f: Fifo, k: Key)
    requires FSafe(f) && FEnabled(f, Transmit(k))
    ensures FSafe(FApply(f, Transmit(k)))
  {
    var base := Projects(f, Transmit(k)).value;
    StepExtends(f.sys, base);
    StepSafe(f.sys, base);
    OnceKept(f.sys, base);
    TransmitLinks(f, k);
  }

  lemma LoseSafe(f: Fifo, l: Link, i: nat)
    requires FSafe(f) && FEnabled(f, Lose(l, i))
    ensures FSafe(FApply(f, Lose(l, i)))
  {
    var g := FApply(f, Lose(l, i));
    DropOne(f.sys, l, f.On(l), i);
    forall j ensures LinkOk(g.sys, j, g.On(j)) {
      assert j != l ==> g.On(j) == f.On(j);
    }
  }

  /** A link after its head has been taken, or has been kept for once more. */
  lemma TakeLeavesLinks(f: Fifo, g: Fifo, l: Link, keep: bool)
    requires Sized(f.sys) && FEnabled(f, Take(l, keep)) && g == FApply(f, Take(l, keep))
    requires forall j :: LinkOk(g.sys, j, f.On(j))
    ensures forall j :: LinkOk(g.sys, j, g.On(j))
  {
    DropOne(g.sys, l, f.On(l), 0);
    assert f.On(l)[..0] + f.On(l)[1..] == f.On(l)[1..];
    forall j ensures LinkOk(g.sys, j, g.On(j)) {
      assert j != l ==> g.On(j) == f.On(j);
    }
  }

  lemma TakeDataAcks(s: System, q: nat, k: Key)
    requires Safe(s) && Enabled(s, ReceiveData(q, k)) && (q, k) !in s.seqAcks && NoneLate(s) && OneAckEach(s.acks)
    ensures var t := Apply(s, ReceiveData(q, k)); NoneLate(t) && OneAckEach(t.acks)
  {
    assert NodeOk(s, q);
    if k in s.Pending(q) {
      RepeatedData(s, q, k);
    } else {
      forall a | a in s.acks ensures !(a.key == k && a.proposer == q) {
        assert AckOk(s, a);
      }
    }
  }

  lemma TakeDataSafe(f: Fifo, l: Link, keep: bool, k: Key)
    requires FSafe(f) && FEnabled(f, Take(l, keep)) && f.On(l)[0] == DataPacket(k)
    ensures FSafe(FApply(f, Take(l, keep)))
  {
    var g, step := FApply(f, Take(l, keep)), ReceiveData(l.1, k);
    assert LinkOk(f.sys, l, f.On(l)) && f.On(l)[0] in f.On(l);
    assert PacketOk(f.sys, l, DataPacket(k));
    StepExtends(f.sys, step);
    StepSafe(f.sys, step);
    OnceKept(f.sys, step);
    TakeDataAcks(f.sys, l.1, k);
    forall j ensures LinkOk(g.sys, j, f.On(j)) {
      LinkStays(f.sys, g.sys, j, f.On(j));
    }
    TakeLeavesLinks(f, g, l, keep);
  }

  lemma TakeSeqNoneLate(s: System, q: nat, m: SeqMessage)
    requires NoneLate(s) && Sized(s) && Enabled(s, ReceiveSeq(q, m))
    ensures NoneLate(Apply(s, ReceiveSeq(q, m)))
  {
  }

  lemma TakeSeqSafe(f: Fifo, l: Link, keep: bool, m: SeqMessage)
    requires FSafe(f) && FEnabled(f, Take(l, keep)) && f.On(l)[0] == SeqPacket(m)
    ensures FSafe(FApply(f, Take(l, keep)))
  {
    var g, step := FApply(f, Take(l, keep)), ReceiveSeq(l.1, m);
    assert LinkOk(f.sys, l, f.On(l)) && f.On(l)[0] in f.On(l);
    assert PacketOk(f.sys, l, SeqPacket(m));
    StepExtends(f.sys, step);
    StepSafe(f.sys, step);
    OnceKept(f.sys, step);
    TakeSeqNoneLate(f.sys, l.1, m);
    forall j ensures LinkOk(g.sys, j, f.On(j)) {
      LinkAfterSeq(f.sys, g.sys, j, f.On(j), l, m);
    }
    TakeLeavesLinks(f, g, l, keep);
  }

  lemma FStepSafe(f: Fifo, step: FStep)
    requires FSafe(f) && FEnabled(f, step)
    ensures FSafe(FApply(f, step))
  {
    match step
    case Local(st) => LocalSafe(f, st);
    case Transmit(k) => TransmitSafe(f, k);
    case Take(l, keep) =>
      match f.On(l)[0] {
        case DataPacket(k) => TakeDataSafe(f, l, keep, k);
        case SeqPacket(m) => TakeSeqSafe(f, l, keep, m);
      }
    case Lose(l, i) => LoseSafe(f, l, i);
  }

  lemma {:induction false} FRunSafe(f: Fifo, steps: seq<FStep>, g: Fifo)
    requires FSafe(f) && FExecutes(f, steps, g)
    ensures FSafe(g)
    decreases |steps|
  {
    if steps != [] {
      FStepSafe(f, steps[0]);
      FRunSafe(FApply(f, steps[0]), steps[1..], g);
    }
  }

  /** What is on a link can be received. */
  lemma HeadEnabled(f: Fifo, l: Link, keep: bool)
    requires FSafe(f) && f.On(l) != []
    ensures FEnabled(f, Take(l, keep))
  {
    assert LinkOk(f.sys, l, f.On(l)) && f.On(l)[0] in f.On(l);
    assert PacketOk(f.sys, l, f.On(l)[0]);
    match f.On(l)[0]
    case DataPacket(k) => assert (l.1, k) in f.sys.data;
    case SeqPacket(m) => assert SeqOk(f.sys, l.1, m);
  }

  /** A step keeps the invariant if and only if it does not wrap a counter. */
  lemma FStepKeeps(f: Fifo, step: FStep)
    requires FGood(f) && FEnabled(f, step)
    ensures FGood(FApply(f, step)) <==> !FWraps(f, step)
  {
    FStepSafe(f, step);
    if Projects(f, step).Some? {
      StepKeeps(f.sys, Projects(f, step).value);
    }
  }

  /** A run keeps the invariant if and only if no step of it wraps a counter. */
  lemma {:induction false} FRunKeeps(f: Fifo, steps: seq<FStep>, g: Fifo)
    requires FGood(f) && FExecutes(f, steps, g)
    ensures FGood(g) <==> !FWrapsAlong(f, steps)
    decreases |steps|
  {
    if FWrapsAlong(f, steps) {
      var base := FifoRefinesAny(f, steps, g);
      RunKeeps(f.sys, base, g.sys);
    } else if steps != [] {
      FStepKeeps(f, steps[0]);
      FRunKeeps(FApply(f, steps[0]), steps[1..], g);
    }
  }

  // ----- few messages cannot wrap a counter

  lemma ProposalsCounted(f: Fifo)
    requires FSafe(f)
    ensures |f.sys.acks| <= |f.sys.nodes| * |f.sys.senders|
  {
    forall a | a in f.sys.acks ensures a.key in f.sys.senders.Keys && a.proposer < |f.sys.nodes| {
      assert AckOk(f.sys, a);
    }
    CountAcks(f.sys.acks, f.sys.senders.Keys, |f.sys.nodes|);
    assert |f.sys.senders.Keys| == |f.sys.senders|;
  }

  lemma BoundedStepNeverWraps(f: Fifo, step: FStep)
    requires FGood(f) && FEnabled(f, step) && Bounded(FApply(f, step))
    ensures !FWraps(f, step)
  {
    FStepSafe(f, step);
    ProposalsCounted(FApply(f, step));
    if FWraps(f, step) {
      WrapNeedsProposals(f.sys, Projects(f, step).value);
      assert false;
    }
  }

  /** A process proposes once for each message, so with fewer than 2^32 pairs of a process
      and a launched message no counter can have wrapped. */
  lemma {:induction false} FewMessagesNeverWrap(f: Fifo, steps: seq<FStep>, g: Fifo)
    requires FGood(f) && FExecutes(f, steps, g) && Bounded(g)
    ensures !FWrapsAlong(f, steps)
    decreases |steps|
  {
    if steps != [] {
      var mid := FApply(f, steps[0]);
      var base := FifoRefinesAny(mid, steps[1..], g);
      RunExtends(mid.sys, base, g.sys);
      MoreSendersBounded(mid, g);
      BoundedStepNeverWraps(f, steps[0]);
      FStepKeeps(f, steps[0]);
      FewMessagesNeverWrap(mid, steps[1..], g);
    }
  }

  lemma MulMonotone(n: nat, a: nat, b: nat)
    requires a <= b
    ensures n * a <= n * b
  {
  }

  lemma MoreSendersBounded(f: Fifo, g: Fifo)
    requires |f.sys.nodes| == |g.sys.nodes| && f.sys.senders.Keys <= g.sys.senders.Keys && Bounded(g)
    ensures Bounded(f)
  {
    SubsetSize(f.sys.senders.Keys, g.sys.senders.Keys);
    MulMonotone(|f.sys.nodes|, |f.sys.senders.Keys|, |g.sys.senders.Keys|);
  }
}
