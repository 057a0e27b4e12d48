/** The hold-back queue: a map of the unsequenced messages and an ordered set of all held
    messages, first as a value with its specification, then as the class that updates
    both structures in place. */
module HoldBack {
  import opened Wire
  import opened Ordering

  datatype Proposal = Proposal(number: u32, proposer: u32)

  /** The two structures of the queue. */
  datatype Queue = Queue(pending: map<Key, Proposal>, ordering: seq<Entry>)

  const EMPTY := Queue(map[], [])

  function Unsequenced(k: Key, p: Proposal): Entry {
    Entry(k, p.number, p.proposer, false)
  }

  /** The entry a sequenced message has while it is held. */
  function EntryOf(m: SeqMessage): Entry {
    Entry(m.key, m.finalSeq, m.finalSeqProposer, true)
  }

  function MessageOf(e: Entry): SeqMessage {
    SeqMessage(e.key, e.number, e.proposer)
  }

  function MessagesOf(es: seq<Entry>): (ms: seq<SeqMessage>)
    ensures |ms| == |es| && forall i :: 0 <= i < |es| ==> ms[i] == MessageOf(es[i])
  {
    seq(|es|, i requires 0 <= i < |es| => MessageOf(es[i]))
  }

  /** The map is exactly the unsequenced part of the ordered set. */
  ghost predicate IndexAgrees(q: Queue) {
    && (forall k :: k in q.pending ==> Unsequenced(k, q.pending[k]) in q.ordering)
    && (forall e :: e in q.ordering && !e.deliverable ==>
          e.key in q.pending && e == Unsequenced(e.key, q.pending[e.key]))
  }

  /** No sequenced message waits at the head. */
  predicate HeadDrained(q: Queue) {
    q.ordering == [] || !q.ordering[0].deliverable
  }

  ghost predicate ValidQueue(q: Queue) {
    Sorted(q.ordering) && IndexAgrees(q) && HeadDrained(q)
  }

  /** The order of deliveries: final number, then sender, then message id. */
  predicate Before(a: SeqMessage, b: SeqMessage) {
    || a.finalSeq < b.finalSeq
    || (a.finalSeq == b.finalSeq && a.key.sender < b.key.sender)
    || (a.finalSeq == b.finalSeq && a.key.sender == b.key.sender && a.key.msgId < b.key.msgId)
  }

  /** Deliveries come in the order of the comparator, and so by final number, then sender,
      then message id, of 32 bits each. */
  lemma BeforeIsRank(a: SeqMessage, b: SeqMessage)
    ensures Before(a, b) <==> Less(EntryOf(a), EntryOf(b))
    ensures Before(a, b) <==>
            a.finalSeq * 0x1_0000_0000_0000_0000 + a.key.sender * 0x1_0000_0000 + a.key.msgId
            < b.finalSeq * 0x1_0000_0000_0000_0000 + b.key.sender * 0x1_0000_0000 + b.key.msgId
  {
  }

  ghost predicate Increasing(ms: seq<SeqMessage>) {
    forall i, j :: 0 <= i < j < |ms| ==> Before(ms[i], ms[j])
  }

  // ----- specification of the three operations

  function PendingAck(q: Queue, k: Key): Option<AckMessage> {
    if k in q.pending then Some(AckMessage(k, q.pending[k].number, q.pending[k].proposer)) else None
  }

  function Enqueue(q: Queue, a: AckMessage): Queue
    requires a.key !in q.pending
  {
    var p := Proposal(a.proposedSeq, a.proposer);
    Queue(q.pending[a.key := p], Insert(q.ordering, Unsequenced(a.key, p)))
  }

  /** The ordered set once m's entry has been replaced by its sequenced entry. */
  function Resequenced(q: Queue, m: SeqMessage): seq<Entry>
    requires m.key in q.pending
  {
    Insert(Erase(q.ordering, Unsequenced(m.key, q.pending[m.key])), EntryOf(m))
  }

  /** A sequence message for a pending key releases everything that nothing unsequenced
      blocks any more; for any other key it has no effect. */
  function Sequence(q: Queue, m: SeqMessage): (Queue, seq<SeqMessage>) {
    if m.key !in q.pending then (q, [])
    else
      var s := Resequenced(q, m);
      (Queue(q.pending - {m.key}, Retained(s)), MessagesOf(Released(s)))
  }

  // ----- what every operation keeps

  lemma EnqueueKeepsValid(q: Queue, a: AckMessage)
    requires ValidQueue(q) && a.key !in q.pending
    ensures var e := Unsequenced(a.key, Proposal(a.proposedSeq, a.proposer));
            var q' := Enqueue(q, a);
            && ValidQueue(q')
            && !Contains(q.ordering, e)
            && forall x :: x in q'.ordering <==> x in q.ordering || x == e
  {
    var e := Unsequenced(a.key, Proposal(a.proposedSeq, a.proposer));
    var q' := Enqueue(q, a);
    assert !Contains(q.ordering, e);
    InsertSorted(q.ordering, e);
    InsertHead(q.ordering, e);
  }

  /** The erase removes the message's own entry and nothing else. */
  lemma ResequencedMembers(q: Queue, m: SeqMessage)
    requires ValidQueue(q) && m.key in q.pending
    ensures var entry := Unsequenced(m.key, q.pending[m.key]);
            var s := Resequenced(q, m);
            && Sorted(s)
            && entry in q.ordering && entry !in s
            && (exists e :: e in s && Equivalent(e, EntryOf(m)))
            && (forall e :: e in s ==> e == EntryOf(m) || (e in q.ordering && e != entry))
            && (forall e :: e in q.ordering && e != entry ==> e in s)
            && (EntryOf(m) in s || Contains(q.ordering, EntryOf(m)))
  {
    var entry := Unsequenced(m.key, q.pending[m.key]);
    var mid := Erase(q.ordering, entry);
    assert Equivalent(entry, entry);
    EraseSorted(q.ordering, entry);
    InsertSorted(mid, EntryOf(m));
    assert Equivalent(EntryOf(m), EntryOf(m));
    assert EntryOf(m) !in mid || Contains(mid, EntryOf(m));
    forall e | e in q.ordering && e != entry ensures e in mid {
      assert Equivalent(e, entry) ==> !e.deliverable && e.key == m.key;
    }
    var s := Resequenced(q, m);
    assert EntryOf(m) in s || exists e :: e in s && Equivalent(e, EntryOf(m));
  }

  lemma SequenceKeepsValid(q: Queue, m: SeqMessage)
    requires ValidQueue(q)
    ensures ValidQueue(Sequence(q, m).0)
  {
    if m.key in q.pending {
      var s := Resequenced(q, m);
      ResequencedMembers(q, m);
      ReleasedSorted(s);
      ReleasedPlusRetained(s);
      var q' := Sequence(q, m).0;
      forall k | k in q'.pending ensures Unsequenced(k, q'.pending[k]) in q'.ordering {
        assert Unsequenced(k, q.pending[k]) in s;
      }
      forall e | e in q'.ordering && !e.deliverable
        ensures e.key in q'.pending && e == Unsequenced(e.key, q'.pending[e.key])
      {
        assert e in q.ordering && e != Unsequenced(m.key, q.pending[m.key]);
      }
    }
  }

  /** The scan cuts the resequenced set in two: what it delivers, in comparator order,
      and what it keeps. */
  lemma ScanSplits(q: Queue, m: SeqMessage)
    requires ValidQueue(q) && m.key in q.pending
    ensures var (q', out) := Sequence(q, m);
            var s := Resequenced(q, m);
            && Sorted(s)
            && |out| + |q'.ordering| == |s|
            && (forall i :: 0 <= i < |out| ==> s[i] == EntryOf(out[i]))
            && q'.ordering == s[|out|..]
  {
    ResequencedMembers(q, m);
    ReleasedAsMessages(Resequenced(q, m));
  }

  lemma ReleasedAsMessages(s: seq<Entry>)
    requires Sorted(s)
    ensures var out := MessagesOf(Released(s));
            && |out| + |Retained(s)| == |s|
            && (forall i :: 0 <= i < |out| ==> s[i] == EntryOf(out[i]))
            && Retained(s) == s[|out|..]
  {
    ReleasedPlusRetained(s);
    var r := Released(s);
    assert forall i :: 0 <= i < |r| ==> r[i] in r && EntryOf(MessageOf(r[i])) == r[i];
    assert forall i :: 0 <= i < |r| ==> s[i] == r[i];
    assert Retained(s) == s[|r|..];
  }

  /** A sequence message for a pending key delivers exactly the sequenced messages
      numbered strictly below every message that stays unsequenced, and all it delivers
      sorts before all it keeps. */
  lemma ScanDeliversExactlyUnblocked(q: Queue, m: SeqMessage)
    requires ValidQueue(q) && m.key in q.pending
    ensures var (q', out) := Sequence(q, m);
            && (forall x :: x in out <==>
                  && EntryOf(x) in Resequenced(q, m)
                  && forall k :: k in q'.pending ==> x.finalSeq < q'.pending[k].number)
            && Increasing(out)
            && (forall x, e :: x in out && e in q'.ordering ==> Less(EntryOf(x), e))
  {
    var (q', out) := Sequence(q, m);
    var s := Resequenced(q, m);
    ScanSplits(q, m);
    SequenceKeepsValid(q, m);
    forall x
      ensures x in out <==>
              EntryOf(x) in s && forall k :: k in q'.pending ==> x.finalSeq < q'.pending[k].number
    {
      UnblockedByPending(q', s, EntryOf(x));
      OutMembers(Released(s), x);
    }
  }

  lemma OutMembers(r: seq<Entry>, x: SeqMessage)
    requires forall e :: e in r ==> e.deliverable
    ensures x in MessagesOf(r) <==> EntryOf(x) in r
  {
  }

  lemma UnblockedByPending(q': Queue, s: seq<Entry>, e: Entry)
    requires IndexAgrees(q') && q'.ordering == Retained(s)
    ensures Unblocked(e, s) <==>
            e.deliverable && forall k :: k in q'.pending ==> e.number < q'.pending[k].number
  {
  }

  /** The scan of s has delivered out so far. */
  ghost predicate Scanned(s: seq<Entry>, out: seq<SeqMessage>) {
    |out| <= |s| && forall i :: 0 <= i < |out| ==> s[i].deliverable && out[i] == MessageOf(s[i])
  }

  lemma ScanAdvances(s: seq<Entry>, out: seq<SeqMessage>)
    requires Scanned(s, out) && |out| < |s| && s[|out|].deliverable
    ensures Scanned(s, out + [MessageOf(s[|out|])])
    ensures s[|out|..][1..] == s[|out| + 1..]
  {
  }

  /** What a scan that can go no further has delivered. */
  lemma ScanStops(s: seq<Entry>, out: seq<SeqMessage>)
    requires Sorted(s) && Scanned(s, out)
    requires |out| < |s| ==> !s[|out|].deliverable
    ensures s[|out|..] == Retained(s) && out == MessagesOf(Released(s))
  {
    PrefixIsReleased(s, |out|);
    assert out == MessagesOf(s[..|out|]);
  }

  // ----- the class

  class HoldBackQueue {
    var pendingSeqs: map<Key, Proposal>
    var ordering: seq<Entry>

    function Model(): Queue
      reads this
    {
      Queue(pendingSeqs, ordering)
    }

    ghost predicate Valid()
      reads this
    {
      ValidQueue(Model())
    }

    constructor ()
      ensures Valid() && Model() == EMPTY
    {
      pendingSeqs, ordering := map[], [];
    }

    /** The acknowledgement already given for a message still pending, so that a replayed
        message is never given a second number. */
    method Lookup(d: DataMessage) returns (ack: Option<AckMessage>)
      ensures ack == PendingAck(Model(), d.key)
    {
      if d.key !in pendingSeqs {
        return None;
      }
      var p := pendingSeqs[d.key];
      ack := Some(AckMessage(d.key, p.number, p.proposer));
    }

    /** ok is false where the source throws: only for a key already pending. */
    method InsertUndeliverable(a: AckMessage) returns (ok: bool)
      requires Valid()
      modifies this
      ensures Valid()
      ensures ok <==> a.key !in old(pendingSeqs)
      ensures Model() == if ok then Enqueue(old(Model()), a) else old(Model())
    {
      if a.key in pendingSeqs {
        return false;
      }
      EnqueueKeepsValid(Model(), a);
      var p := Proposal(a.proposedSeq, a.proposer);
      pendingSeqs := pendingSeqs[a.key := p];
      var e := Unsequenced(a.key, p);
      if Contains(ordering, e) {
        assert false;  // the second throw
      }
      ordering := Ordering.Insert(ordering, e);
      ok := true;
    }

    /** Delivers and erases for as long as the head of the set is sequenced. */
    method DeliverHead() returns (delivered: seq<SeqMessage>)
      requires Sorted(ordering)
      modifies this`ordering
      ensures ordering == Retained(old(ordering))
      ensures delivered == MessagesOf(Released(old(ordering)))
    {
      ghost var s := ordering;
      delivered := [];
      while ordering != []
        invariant Scanned(s, delivered) && ordering == s[|delivered|..]
        decreases |ordering|
      {
        if !ordering[0].deliverable {
          break;
        }
        ScanAdvances(s, delivered);
        delivered := delivered + [MessageOf(ordering[0])];
        ordering := ordering[1..];
      }
      ScanStops(s, delivered);
    }

    method SetDeliverable(m: SeqMessage) returns (delivered: seq<SeqMessage>)
      requires Valid()
      modifies this
      ensures Valid()
      ensures (Model(), delivered) == Sequence(old(Model()), m)
    {
      if m.key !in pendingSeqs {
        return [];
      }
      ResequencedMembers(Model(), m);
      SequenceKeepsValid(Model(), m);
      var p := pendingSeqs[m.key];
      pendingSeqs := pendingSeqs - {m.key};
      ordering := Erase(ordering, Unsequenced(m.key, p));
      ordering := Ordering.Insert(ordering, EntryOf(m));
      delivered := DeliverHead();
    }
  }
}
