/** Ordered links are queues with loss and duplication, and nothing else: what can be
    received from a link, given what is sent on it. */
module Links {
  import opened Wire
  import opened Processes
  import opened TotalOrder
  import opened Safety
  import opened FifoNetwork
  import opened FifoTheorems

  // ----- what a run sends on a link and receives from it

  function PutOn(f: Fifo, step: FStep, l: Link): seq<Packet>
    requires Sized(f.sys) && FEnabled(f, step)
  {
    if step.Transmit? && Outgoing(f.sys, step.k).0 == l then [Outgoing(f.sys, step.k).1] else []
  }

  function TakenFrom(f: Fifo, step: FStep, l: Link): seq<Packet>
    requires Sized(f.sys) && FEnabled(f, step)
  {
    if step.Take? && step.l == l then [f.On(l)[0]] else []
  }

  ghost function Sent(f: Fifo, steps: seq<FStep>, l: Link): seq<Packet>
    requires Sized(f.sys)
    decreases |steps|
  {
    if steps == [] || !FEnabled(f, steps[0]) then []
    else PutOn(f, steps[0], l) + Sent(FApply(f, steps[0]), steps[1..], l)
  }

  ghost function Received(f: Fifo, steps: seq<FStep>, l: Link): seq<Packet>
    requires Sized(f.sys)
    decreases |steps|
  {
    if steps == [] || !FEnabled(f, steps[0]) then []
    else TakenFrom(f, steps[0], l) + Received(FApply(f, steps[0]), steps[1..], l)
  }

  // ----- lists in the order of another

  /** rs[i] is ps[h[i]], and h never goes back. */
  ghost predicate Follows(rs: seq<Packet>, ps: seq<Packet>, h: seq<nat>) {
    && |h| == |rs|
    && (forall i :: 0 <= i < |h| ==> h[i] < |ps| && rs[i] == ps[h[i]])
    && (forall i, j :: 0 <= i < j < |h| ==> h[i] <= h[j])
  }

  /** What is in rs comes in the order it has in ps: some left out, some repeated, none
      overtaken. */
  ghost predicate NoOvertaking(rs: seq<Packet>, ps: seq<Packet>) {
    exists h :: Follows(rs, ps, h)
  }

  lemma Identical(ps: seq<Packet>)
    ensures NoOvertaking(ps, ps)
  {
    assert Follows(ps, ps, seq(|ps|, i => i));
  }

  lemma Compose(rs: seq<Packet>, ps: seq<Packet>, os: seq<Packet>)
    requires NoOvertaking(rs, ps) && NoOvertaking(ps, os)
    ensures NoOvertaking(rs, os)
  {
    var h :| Follows(rs, ps, h);
    var g :| Follows(ps, os, g);
    var c := seq(|h|, i requires 0 <= i < |h| => g[h[i]]);
    assert Follows(rs, os, c);
  }

  lemma FirstAgain(rs: seq<Packet>, ps: seq<Packet>)
    requires NoOvertaking(rs, ps) && ps != []
    ensures NoOvertaking([ps[0]] + rs, ps)
  {
    var h :| Follows(rs, ps, h);
    assert Follows([ps[0]] + rs, ps, [0] + h);
  }

  lemma OneLeftOut(ps: seq<Packet>, i: nat, more: seq<Packet>)
    requires i < |ps|
    ensures NoOvertaking(ps[..i] + ps[i + 1..] + more, ps + more)
  {
    var rs := ps[..i] + ps[i + 1..] + more;
    var h := seq(|rs|, j => if j < i then j else j + 1);
    assert Follows(rs, ps + more, h);
  }

  // ----- no run overtakes

  lemma TakeInOrder(f: Fifo, l: Link, keep: bool, rs: seq<Packet>, more: seq<Packet>)
    requires Sized(f.sys) && FEnabled(f, Take(l, keep))
    requires NoOvertaking(rs, FApply(f, Take(l, keep)).On(l) + more)
    ensures NoOvertaking([f.On(l)[0]] + rs, f.On(l) + more)
  {
    var ps := f.On(l);
    if !keep {
      OneLeftOut(ps, 0, more);
      assert ps[..0] + ps[1..] + more == ps[1..] + more;
      Compose(rs, ps[1..] + more, ps + more);
    }
    FirstAgain(rs, ps + more);
  }

  lemma LoseInOrder(f: Fifo, l: Link, i: nat, rs: seq<Packet>, more: seq<Packet>)
    requires Sized(f.sys) && FEnabled(f, Lose(l, i))
    requires NoOvertaking(rs, FApply(f, Lose(l, i)).On(l) + more)
    ensures NoOvertaking(rs, f.On(l) + more)
  {
    OneLeftOut(f.On(l), i, more);
    Compose(rs, f.On(l)[..i] + f.On(l)[i + 1..] + more, f.On(l) + more);
  }

  lemma OtherLink(f: Fifo, step: FStep, l: Link)
    requires Sized(f.sys) && FEnabled(f, step) && (step.Take? || step.Lose? ==> step.l != l)
    ensures FApply(f, step).On(l) == f.On(l) + PutOn(f, step, l) && TakenFrom(f, step, l) == []
  {
  }

  lemma Assoc(a: seq<Packet>, b: seq<Packet>, c: seq<Packet>)
    ensures a + b + c == a + (b + c)
  {
  }

  /** One step more in front. */
  lemma StepInOrder(f: Fifo, step: FStep, l: Link, rs: seq<Packet>, more: seq<Packet>)
    requires Sized(f.sys) && FEnabled(f, step) && NoOvertaking(rs, FApply(f, step).On(l) + more)
    ensures NoOvertaking(TakenFrom(f, step, l) + rs, f.On(l) + (PutOn(f, step, l) + more))
  {
    assert [] + rs == rs && [] + more == more;
    if step.Take? && step.l == l {
      TakeInOrder(f, l, step.keep, rs, more);
    } else if step.Lose? && step.l == l {
      LoseInOrder(f, l, step.i, rs, more);
    } else {
      OtherLink(f, step, l);
      Assoc(f.On(l), PutOn(f, step, l), more);
    }
  }

  /** What a run receives from a link, and what it leaves on it, comes in the order of what
      was on it and what the run sends. */
  lemma {:induction false} RunInOrder(f: Fifo, steps: seq<FStep>, g: Fifo, l: Link)
    requires Sized(f.sys) && FExecutes(f, steps, g)
    ensures NoOvertaking(Received(f, steps, l) + g.On(l), f.On(l) + Sent(f, steps, l))
    decreases |steps|
  {
    if steps == [] {
      Identical(f.On(l));
      assert [] + f.On(l) == f.On(l) == f.On(l) + [];
    } else {
      var mid, rest := FApply(f, steps[0]), steps[1..];
      RunInOrder(mid, rest, g, l);
      StepInOrder(f, steps[0], l, Received(mid, rest, l) + g.On(l), Sent(mid, rest, l));
      Assoc(TakenFrom(f, steps[0], l), Received(mid, rest, l), g.On(l));
    }
  }

  lemma FirstPart(rs: seq<Packet>, more: seq<Packet>, ps: seq<Packet>)
    requires NoOvertaking(rs + more, ps)
    ensures NoOvertaking(rs, ps)
  {
    var h :| Follows(rs + more, ps, h);
    assert forall i :: 0 <= i < |rs| ==> (rs + more)[i] == rs[i];
    assert Follows(rs, ps, h[..|rs|]);
  }

  /** In every run, what has been received from a link followed by what is still on it
      comes in the order in which copies were sent on it: copies may be lost or
      repeated, but none overtakes another. */
  lemma LinksKeepOrder(n: nat, steps: seq<FStep>, f: Fifo, l: Link)
    requires 0 < n < 0x1_0000_0000 && FExecutes(FInit(n), steps, f)
    ensures NoOvertaking(Received(FInit(n), steps, l) + f.On(l), Sent(FInit(n), steps, l))
  {
    RunInOrder(FInit(n), steps, f, l);
    assert [] + Sent(FInit(n), steps, l) == Sent(FInit(n), steps, l);
  }

  // ----- and all that is possible happens in some run

  /** No sender reads an answer, and nothing is launched. */
  predicate Silent(steps: seq<FStep>) {
    forall step | step in steps :: !step.Local?
  }

  /** A silent run from f to g that sends ss on l and receives rs from it. */
  ghost predicate Carries(f: Fifo, steps: seq<FStep>, g: Fifo, l: Link, ss: seq<Packet>, rs: seq<Packet>)
    requires Sized(f.sys)
  {
    FExecutes(f, steps, g) && Silent(steps) && Sent(f, steps, l) == ss && Received(f, steps, l) == rs
  }

  lemma CarriesNothing(f: Fifo, l: Link)
    requires Sized(f.sys)
    ensures Carries(f, [], f, l, [], [])
  {
  }

  lemma CarriesMore(f: Fifo, step: FStep, rest: seq<FStep>, g: Fifo, l: Link, ss: seq<Packet>, rs: seq<Packet>)
    requires Sized(f.sys) && FEnabled(f, step) && !step.Local? && Carries(FApply(f, step), rest, g, l, ss, rs)
    ensures Carries(f, [step] + rest, g, l, PutOn(f, step, l) + ss, TakenFrom(f, step, l) + rs)
  {
    assert ([step] + rest)[1..] == rest;
  }

  lemma DropUnwanted(rs: seq<Packet>, ps: seq<Packet>, h: seq<nat>) returns (h': seq<nat>)
    requires rs != [] && Follows(rs, ps, h) && h[0] > 0
    ensures Follows(rs, ps[1..], h')
  {
    assert forall i :: 0 <= i < |h| ==> h[i] >= h[0];
    h' := seq(|h|, i requires 0 <= i < |h| => h[i] - 1);
  }

  lemma LoseHead(f: Fifo, l: Link)
    requires Sized(f.sys) && f.On(l) != []
    ensures FEnabled(f, Lose(l, 0)) && FApply(f, Lose(l, 0)).On(l) == f.On(l)[1..]
    ensures PutOn(f, Lose(l, 0), l) == TakenFrom(f, Lose(l, 0), l) == []
  {
    assert f.On(l)[..0] + f.On(l)[1..] == f.On(l)[1..];
  }

  lemma KeepHead(f: Fifo, l: Link)
    requires FSafe(f) && f.On(l) != []
    ensures FEnabled(f, Take(l, true)) && FApply(f, Take(l, true)).On(l) == f.On(l)
    ensures PutOn(f, Take(l, true), l) == [] && TakenFrom(f, Take(l, true), l) == [f.On(l)[0]]
  {
    HeadEnabled(f, l, true);
  }

  /** Receives rs from what is on the link: loses the head where it is not wanted, and
      receives it, keeping it, where it is. */
  lemma {:induction false} ReceiveAll(f: Fifo, l: Link, rs: seq<Packet>, h: seq<nat>)
    returns (steps: seq<FStep>, g: Fifo)
    requires FSafe(f) && Follows(rs, f.On(l), h)
    ensures Carries(f, steps, g, l, [], rs)
    decreases |rs| + |f.On(l)|
  {
    if rs == [] {
      CarriesNothing(f, l);
      steps, g := [], f;
    } else if h[0] == 0 {
      KeepHead(f, l);
      FStepSafe(f, Take(l, true));
      FollowsRest(rs, f.On(l), h);
      var rest;
      rest, g := ReceiveAll(FApply(f, Take(l, true)), l, rs[1..], h[1..]);
      CarriesMore(f, Take(l, true), rest, g, l, [], rs[1..]);
      steps := [Take(l, true)] + rest;
    } else {
      LoseHead(f, l);
      FStepSafe(f, Lose(l, 0));
      var h' := DropUnwanted(rs, f.On(l), h);
      var rest;
      rest, g := ReceiveAll(FApply(f, Lose(l, 0)), l, rs, h');
      CarriesMore(f, Lose(l, 0), rest, g, l, [], rs);
      assert [] + rs == rs;
      steps := [Lose(l, 0)] + rest;
    }
  }

  lemma FollowsRest(rs: seq<Packet>, ps: seq<Packet>, h: seq<nat>)
    requires rs != [] && Follows(rs, ps, h)
    ensures Follows(rs[1..], ps, h[1..]) && rs == [ps[h[0]]] + rs[1..]
  {
  }

  /** Someone has p to put on link l. */
  ghost predicate Offered(s: System, l: Link, p: Packet) {
    exists k :: SendsOn(s, k, l, p)
  }

  lemma SameOffers(s: System, t: System, l: Link, p: Packet)
    requires t.senders == s.senders && |t.nodes| == |s.nodes|
    ensures Offered(t, l, p) <==> Offered(s, l, p)
  {
    if k :| SendsOn(s, k, l, p) {
      assert SendsOn(t, k, l, p);
    }
    if k :| SendsOn(t, k, l, p) {
      assert SendsOn(s, k, l, p);
    }
  }

  /** One copy put on the link. */
  lemma PutOne(f: Fifo, l: Link, p: Packet) returns (step: FStep)
    requires FSafe(f) && Offered(f.sys, l, p)
    ensures FEnabled(f, step) && !step.Local? && PutOn(f, step, l) == [p] && TakenFrom(f, step, l) == []
    ensures var g := FApply(f, step); FSafe(g) && g.On(l) == f.On(l) + [p] && g.sys.senders == f.sys.senders
  {
    var k :| SendsOn(f.sys, k, l, p);
    step := Transmit(k);
    FStepSafe(f, step);
  }

  /** Sends ss, then receives rs. */
  lemma {:induction false} SendAll(f: Fifo, l: Link, ss: seq<Packet>, rs: seq<Packet>)
    returns (steps: seq<FStep>, g: Fifo)
    requires FSafe(f) && (forall p :: p in ss ==> Offered(f.sys, l, p)) && NoOvertaking(rs, f.On(l) + ss)
    ensures Carries(f, steps, g, l, ss, rs)
    decreases |ss|
  {
    if ss == [] {
      assert f.On(l) + ss == f.On(l);
      var h :| Follows(rs, f.On(l), h);
      steps, g := ReceiveAll(f, l, rs, h);
    } else {
      var step := PutOne(f, l, ss[0]);
      var mid := FApply(f, step);
      forall p | p in ss[1..] ensures Offered(mid.sys, l, p) {
        SameOffers(f.sys, mid.sys, l, p);
      }
      assert ss == [ss[0]] + ss[1..];
      Assoc(f.On(l), [ss[0]], ss[1..]);
      var rest;
      rest, g := SendAll(mid, l, ss[1..], rs);
      CarriesMore(f, step, rest, g, l, ss[1..], rs);
      steps := [step] + rest;
      assert [] + rs == rs;
    }
  }

  /** In a silent run only what is offered can be sent. */
  lemma {:induction false} SentWasOffered(f: Fifo, steps: seq<FStep>, g: Fifo, l: Link)
    requires Sized(f.sys) && FExecutes(f, steps, g) && Silent(steps)
    ensures forall p :: p in Sent(f, steps, l) ==> Offered(f.sys, l, p)
    decreases |steps|
  {
    if steps != [] {
      var mid, step := FApply(f, steps[0]), steps[0];
      assert step in steps;
      SentWasOffered(mid, steps[1..], g, l);
      forall p | p in Sent(f, steps, l) ensures Offered(f.sys, l, p) {
        SameOffers(f.sys, mid.sys, l, p);
        if p in PutOn(f, step, l) {
          assert SendsOn(f.sys, step.k, l, p);
        }
      }
    }
  }

  ghost predicate CanCarry(f: Fifo, l: Link, ss: seq<Packet>, rs: seq<Packet>)
    requires Sized(f.sys)
  {
    exists steps, g :: Carries(f, steps, g, l, ss, rs)
  }

  /** A link does exactly what an ordered link may do: in any reachable state, before any
      sender reads another answer, ss can be sent on it and rs received from it if and only
      if senders have the copies ss to send and rs comes in the order of what is on the
      link followed by ss. */
  lemma LinkExactly(n: nat, before: seq<FStep>, f: Fifo, l: Link, ss: seq<Packet>, rs: seq<Packet>)
    requires 0 < n < 0x1_0000_0000 && FExecutes(FInit(n), before, f)
    ensures CanCarry(f, l, ss, rs) <==>
            (forall p :: p in ss ==> Offered(f.sys, l, p)) && NoOvertaking(rs, f.On(l) + ss)
  {
    FReachableSafe(n, before, f);
    if CanCarry(f, l, ss, rs) {
      var steps, g :| Carries(f, steps, g, l, ss, rs);
      SentWasOffered(f, steps, g, l);
      RunInOrder(f, steps, g, l);
      FirstPart(rs, g.On(l), f.On(l) + ss);
    }
    if (forall p :: p in ss ==> Offered(f.sys, l, p)) && NoOvertaking(rs, f.On(l) + ss) {
      var steps, g := SendAll(f, l, ss, rs);
    }
  }

  // ----- what the protocol adds

  ghost predicate HasAck(s: System, k: Key, q: nat) {
    exists a :: a in s.acks && a.key == k && a.proposer == q
  }

  lemma DataAcks(s: System, q: nat, j: Key, k: Key, p: nat)
    requires Safe(s) && Enabled(s, ReceiveData(q, j)) && HasAck(Apply(s, ReceiveData(q, j)), k, p)
    ensures HasAck(s, k, p) || (k == j && p == q)
  {
    var t := Apply(s, ReceiveData(q, j));
    var a :| a in t.acks && a.key == k && a.proposer == p;
    assert NodeOk(s, q);
    if j in s.Pending(q) {
      RepeatedData(s, q, j);
    } else {
      assert t.acks == s.acks + {AckMessage(j, NextSeqNum(s.nodes[q].proc.counter), q)};
    }
  }

  lemma StepAcks(f: Fifo, step: FStep, k: Key, q: nat)
    requires FSafe(f) && FEnabled(f, step) && HasAck(FApply(f, step).sys, k, q) && !HasAck(f.sys, k, q)
    ensures TakenFrom(f, step, (k.sender, q)) == [DataPacket(k)]
  {
    var l := step.l;
    assert LinkOk(f.sys, l, f.On(l)) && f.On(l)[0] in f.On(l);
    assert PacketOk(f.sys, l, f.On(l)[0]);
    match f.On(l)[0]
    case DataPacket(j) => DataAcks(f.sys, l.1, j, k, q);
    case SeqPacket(_) =>
  }

  lemma {:induction false} AckNeedsData(f: Fifo, steps: seq<FStep>, g: Fifo, k: Key, q: nat)
    requires FSafe(f) && FExecutes(f, steps, g)
    requires HasAck(g.sys, k, q)
    ensures HasAck(f.sys, k, q) || DataPacket(k) in Received(f, steps, (k.sender, q))
    decreases |steps|
  {
    if steps != [] {
      var mid := FApply(f, steps[0]);
      FStepSafe(f, steps[0]);
      AckNeedsData(mid, steps[1..], g, k, q);
      if HasAck(mid.sys, k, q) && !HasAck(f.sys, k, q) {
        StepAcks(f, steps[0], k, q);
      }
    }
  }

  /** What is sent on a link is sent in the unordered system, from one end to the other. */
  lemma {:induction false} SentIsSent(f: Fifo, steps: seq<FStep>, g: Fifo, l: Link, m: SeqMessage)
    requires FSafe(f) && FExecutes(f, steps, g) && SeqPacket(m) in Sent(f, steps, l)
    ensures m.key.sender == l.0 && (l.1, m) in g.sys.seqs
    decreases |steps|
  {
    var mid := FApply(f, steps[0]);
    FStepSafe(f, steps[0]);
    if SeqPacket(m) in PutOn(f, steps[0], l) {
      PutIsSent(f, steps[0], l, m);
      var base := FifoRefinesAny(mid, steps[1..], g);
      RunExtends(mid.sys, base, g.sys);
    } else {
      SentIsSent(mid, steps[1..], g, l, m);
    }
  }

  lemma PutIsSent(f: Fifo, step: FStep, l: Link, m: SeqMessage)
    requires FSafe(f) && FEnabled(f, step) && SeqPacket(m) in PutOn(f, step, l)
    ensures m.key.sender == l.0 && (l.1, m) in FApply(f, step).sys.seqs
  {
    assert SenderOk(f.sys, step.k);
  }

  /** Over a whole run the senders are part of it, and so not every order of what is sent
      can be received: no Seq goes out on a link from which Data of the same message has
      not been received. */
  lemma SeqOnlyAfterData(n: nat, steps: seq<FStep>, f: Fifo, l: Link, m: SeqMessage)
    requires 0 < n < 0x1_0000_0000 && FExecutes(FInit(n), steps, f)
    requires SeqPacket(m) in Sent(FInit(n), steps, l)
    ensures DataPacket(m.key) in Received(FInit(n), steps, l)
  {
    FInitGood(n);
    FReachableSafe(n, steps, f);
    SentIsSent(FInit(n), steps, f, l, m);
    assert SeqOk(f.sys, l.1, m) && SenderOk(f.sys, m.key);
    assert AckMessage(m.key, f.sys.senders[m.key].acks[l.1], l.1) in f.sys.acks;
    assert HasAck(f.sys, m.key, l.1);
    AckNeedsData(FInit(n), steps, f, m.key, l.1);
  }

  /** So an order that the link alone would allow need not occur: Data and then Seq sent,
      and only the Seq received. */
  lemma NotEveryOrder(n: nat, steps: seq<FStep>, f: Fifo, l: Link, m: SeqMessage)
    requires 0 < n < 0x1_0000_0000 && FExecutes(FInit(n), steps, f)
    ensures NoOvertaking([SeqPacket(m)], [DataPacket(m.key), SeqPacket(m)])
    ensures Sent(FInit(n), steps, l) == [DataPacket(m.key), SeqPacket(m)] ==>
              Received(FInit(n), steps, l) != [SeqPacket(m)]
  {
    assert Follows([SeqPacket(m)], [DataPacket(m.key), SeqPacket(m)], [1]);
    if Sent(FInit(n), steps, l) == [DataPacket(m.key), SeqPacket(m)] {
      SeqOnlyAfterData(n, steps, f, l, m);
    }
  }
}
