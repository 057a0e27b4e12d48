/** A process: a sequence counter and a hold-back queue, driven by the datagrams that
    its listening loop receives one at a time. */
module Processes {
  import opened Wire
  import opened HoldBack

  datatype ProcState = ProcState(counter: u32, queue: Queue)

  const FRESH := ProcState(0, EMPTY)

  /** ++seq_counter_ on an unsigned 32-bit counter. */
  function NextSeqNum(counter: u32): (c: u32)
    ensures c > counter <==> counter < 0xFFFF_FFFF
  {
    (counter + 1) % 0x1_0000_0000
  }

  function ForwardSeqNum(counter: u32, seen: u32): (c: u32)
    ensures c >= counter && c >= seen && (c == counter || c == seen)
  {
    if seen > counter then seen else counter
  }

  /** The reaction to a valid Data message: the acknowledgement given before if the
      message is still pending, otherwise a fresh proposal. */
  function HandleData(p: ProcState, id: u32, k: Key): (ProcState, AckMessage) {
    match PendingAck(p.queue, k)
    case Some(ack) => (p, ack)
    case None =>
      var c := NextSeqNum(p.counter);
      var ack := AckMessage(k, c, id);
      (ProcState(c, Enqueue(p.queue, ack)), ack)
  }

  /** The reaction to a valid Seq message, with the messages delivered. */
  function HandleSeq(p: ProcState, m: SeqMessage): (ProcState, seq<SeqMessage>) {
    var (q, out) := Sequence(p.queue, m);
    (ProcState(ForwardSeqNum(p.counter, m.finalSeq), q), out)
  }

  datatype Reaction = Reaction(state: ProcState, reply: Option<Bytes>, delivered: seq<SeqMessage>)

  /** The reaction of process id of n to any datagram whatever: typed datagrams that
      decode and validate are handled, everything else is dropped without a reply. */
  ghost predicate Reacts(p: ProcState, id: u32, n: nat, buf: Bytes, r: Reaction) {
    && (forall d :: buf == Encode(DataMsg(d)) && d.key.sender < n ==>
          var (p', ack) := HandleData(p, id, d.key);
          r == Reaction(p', Some(Encode(AckMsg(ack))), []))
    && (forall m :: buf == Encode(SeqMsg(m)) && m.key.sender < n && m.finalSeqProposer < n ==>
          var (p', out) := HandleSeq(p, m);
          r == Reaction(p', Some(Encode(SeqAckMsg(SeqAckMessage(m.key)))), out))
    && ((forall d :: buf == Encode(DataMsg(d)) ==> d.key.sender >= n)
        && (forall m :: buf == Encode(SeqMsg(m)) ==> m.key.sender >= n || m.finalSeqProposer >= n)
        ==> r == Reaction(p, None, []))
  }

  /** The reaction to a datagram is determined, so Reacts specifies all of it. */
  lemma ReactionUnique(p: ProcState, id: u32, n: nat, buf: Bytes, r: Reaction, r': Reaction)
    ensures Reacts(p, id, n, buf, r) && Reacts(p, id, n, buf, r') ==> r == r'
  {
  }

  /** A process answers exactly the Data of a known sender and the Seq of a known sender and
      proposer; what it does not answer changes nothing and delivers nothing. */
  lemma ReactionAnswers(p: ProcState, id: u32, n: nat, buf: Bytes, r: Reaction)
    requires Reacts(p, id, n, buf, r)
    ensures r.reply.Some? <==>
            || (exists d :: buf == Encode(DataMsg(d)) && d.key.sender < n)
            || (exists m :: buf == Encode(SeqMsg(m)) && m.key.sender < n && m.finalSeqProposer < n)
    ensures r.reply == None ==> r.state == p && r.delivered == []
  {
  }

  /** Data delivers nothing, and its answer names the number its message is now held with. */
  lemma DataAnswer(p: ProcState, id: u32, n: nat, d: DataMessage, r: Reaction)
    requires Reacts(p, id, n, Encode(DataMsg(d)), r) && d.key.sender < n
    ensures r.delivered == [] && d.key in r.state.queue.pending
    ensures var held := r.state.queue.pending[d.key];
            r.reply == Some(Encode(AckMsg(AckMessage(d.key, held.number, held.proposer))))
  {
    assert Encode(DataMsg(d)) == Encode(DataMsg(d));
  }

  /** Seq leaves its message no longer pending and the counter at its number or above. */
  lemma SeqAnswer(p: ProcState, id: u32, n: nat, m: SeqMessage, r: Reaction)
    requires Reacts(p, id, n, Encode(SeqMsg(m)), r) && m.key.sender < n && m.finalSeqProposer < n
    ensures m.key !in r.state.queue.pending && r.state.counter >= m.finalSeq
    ensures r.reply == Some(Encode(SeqAckMsg(SeqAckMessage(m.key))))
  {
    assert Encode(SeqMsg(m)) == Encode(SeqMsg(m));
  }

  class Process {
    const processCount: nat
    const id: u32
    const holdBackQueue: HoldBackQueue
    var seqCounter: u32

    function Model(): ProcState
      reads this, holdBackQueue
    {
      ProcState(seqCounter, holdBackQueue.Model())
    }

    ghost predicate Valid()
      reads this, holdBackQueue
    {
      holdBackQueue.Valid()
    }

    constructor (processCount: nat, id: u32)
      ensures Valid() && Model() == FRESH && fresh(holdBackQueue)
      ensures this.processCount == processCount && this.id == id
    {
      this.processCount, this.id := processCount, id;
      holdBackQueue := new HoldBackQueue();
      seqCounter := 0;
    }

    method TakeSeqNum() returns (c: u32)
      modifies this`seqCounter
      ensures seqCounter == c == NextSeqNum(old(seqCounter))
    {
      seqCounter := (seqCounter + 1) % 0x1_0000_0000;
      c := seqCounter;
    }

    method Forward(seen: u32)
      modifies this`seqCounter
      ensures seqCounter == ForwardSeqNum(old(seqCounter), seen)
    {
      if seen > seqCounter {
        seqCounter := seen;
      }
    }

    /** Nothing but a well-formed Data message of a known sender has any effect. */
    method HandleDataMsg(buf: Bytes) returns (reply: Option<Bytes>)
      requires Valid()
      modifies this`seqCounter, holdBackQueue
      ensures Valid()
      ensures forall d :: TakenAsData(buf, d, processCount) ==>
                (Model(), reply) == (HandleData(old(Model()), id, d.key).0,
                                     Some(Encode(AckMsg(HandleData(old(Model()), id, d.key).1))))
      ensures (forall d :: !TakenAsData(buf, d, processCount)) ==> Model() == old(Model()) && reply == None
    {
      var decoded := DataMsgFromBuf(buf);
      if decoded == None || !ValidDataMsg(decoded.value, processCount) {
        return None;
      }
      var d := decoded.value.msg;
      assert TakenAsData(buf, d, processCount);
      var ack := holdBackQueue.Lookup(d);
      if ack == None {
        var c := TakeSeqNum();
        var proposal := AckMessage(d.key, c, id);
        var ok := holdBackQueue.InsertUndeliverable(proposal);
        assert ok;  // the queue does not throw
        ack := Some(proposal);
      }
      reply := Some(Encode(AckMsg(ack.value)));
    }

    method HandleSeqMsg(buf: Bytes) returns (reply: Option<Bytes>, delivered: seq<SeqMessage>)
      requires Valid()
      modifies this`seqCounter, holdBackQueue
      ensures Valid()
      ensures forall m :: TakenAsSeq(buf, m, processCount) ==>
                (Model(), delivered) == HandleSeq(old(Model()), m)
                && reply == Some(Encode(SeqAckMsg(SeqAckMessage(m.key))))
      ensures (forall m :: !TakenAsSeq(buf, m, processCount)) ==>
                Model() == old(Model()) && reply == None && delivered == []
    {
      var decoded := SeqMsgFromBuf(buf);
      if decoded == None || !ValidSeqMsg(decoded.value, processCount) {
        return None, [];
      }
      var m := decoded.value.msg;
      assert TakenAsSeq(buf, m, processCount);
      Forward(m.finalSeq);
      reply := Some(Encode(SeqAckMsg(SeqAckMessage(m.key))));
      delivered := holdBackQueue.SetDeliverable(m);
    }

    /** The callback of the listening loop: dispatch on the type word. */
    method Receive(buf: Bytes) returns (reply: Option<Bytes>, delivered: seq<SeqMessage>)
      requires Valid()
      modifies this`seqCounter, holdBackQueue
      ensures Valid()
      ensures Reacts(old(Model()), id, processCount, buf, Reaction(Model(), reply, delivered))
    {
      reply, delivered := None, [];
      Separation(buf, processCount);
      OneKind(buf);
      var tag := MessageTypeFromBuf(buf);
      if tag != None {
        if tag.value == DATA_TYPE {
          reply := HandleDataMsg(buf);
        } else if tag.value == SEQ_TYPE {
          reply, delivered := HandleSeqMsg(buf);
        }
      }
    }
  }

  lemma OneKind(buf: Bytes)
    ensures forall m :: buf == Encode(m) ==> MessageTypeFromBuf(buf) == Some(Tag(m))
  {
  }
}
