/** The hold-back queue on its own: what it guarantees about any history of calls, given
    what its caller provides. */
module QueueHistory {
  import opened Wire
  import opened Ordering
  import opened HoldBack

  datatype Call = InsertCall(ack: AckMessage) | SequenceCall(msg: SeqMessage)

  /** The queue after a history of calls, and all that the calls delivered. An insertion
      of a key that is pending throws and changes nothing. */
  function Play(calls: seq<Call>): (Queue, seq<SeqMessage>) {
    if calls == [] then (EMPTY, [])
    else
      var (q, out) := Play(calls[..|calls| - 1]);
      match calls[|calls| - 1]
      case InsertCall(a) => if a.key in q.pending then (q, out) else (Enqueue(q, a), out)
      case SequenceCall(m) => (Sequence(q, m).0, out + Sequence(q, m).1)
  }

  /** Call i brought in number x: as a proposal, or as the final number of a message that
      it found pending. */
  predicate Brought(calls: seq<Call>, i: nat, x: u32)
    requires i < |calls|
  {
    match calls[i]
    case InsertCall(a) => a.proposedSeq == x
    case SequenceCall(m) => m.finalSeq == x && m.key in Play(calls[..i]).0.pending
  }

  /** What the caller provides at call i: an insertion has a number above all numbers
      brought in before, and a final number is at least the number the message is held
      with. Calls for keys that are not pending are free. */
  ghost predicate RelyAt(calls: seq<Call>, i: nat)
    requires i < |calls|
  {
    match calls[i]
    case InsertCall(a) => forall j, x: u32 :: 0 <= j < i && Brought(calls, j, x) ==> x < a.proposedSeq
    case SequenceCall(m) =>
      var p := Play(calls[..i]).0.pending;
      m.key in p ==> p[m.key].number <= m.finalSeq
  }

  ghost predicate Rely(calls: seq<Call>) {
    forall i :: 0 <= i < |calls| ==> RelyAt(calls, i)
  }

  lemma BroughtPrefix(calls: seq<Call>, n: nat, j: nat, x: u32)
    requires j < n <= |calls|
    ensures Brought(calls[..n], j, x) <==> Brought(calls, j, x)
  {
    assert calls[..n][..j] == calls[..j];
  }

  lemma RelyPrefix(calls: seq<Call>, n: nat)
    requires Rely(calls) && n <= |calls|
    ensures Rely(calls[..n])
  {
    forall i | 0 <= i < n ensures RelyAt(calls[..n], i) {
      assert RelyAt(calls, i) && calls[..n][..i] == calls[..i];
      forall j, x: u32 | 0 <= j < i && Brought(calls[..n], j, x) ensures Brought(calls, j, x) {
        BroughtPrefix(calls, n, j, x);
      }
    }
  }

  /** The largest number brought in, or -1. */
  function Top(calls: seq<Call>): int {
    if calls == [] then -1
    else
      var front := calls[..|calls| - 1];
      var x := match calls[|calls| - 1]
        case InsertCall(a) => a.proposedSeq as int
        case SequenceCall(m) => if m.key in Play(front).0.pending then m.finalSeq else -1;
      if x > Top(front) then x else Top(front)
  }

  lemma {:induction false} TopIsBrought(calls: seq<Call>) returns (i: nat)
    requires Top(calls) != -1
    ensures i < |calls| && 0 <= Top(calls) < 0x1_0000_0000 && Brought(calls, i, Top(calls))
  {
    var n := |calls| - 1;
    var front := calls[..n];
    if Top(calls) == Top(front) {
      i := TopIsBrought(front);
      BroughtPrefix(calls, n, i, Top(calls));
    } else {
      i := n;
    }
  }

  /** The queue and its deliveries know no larger number, and all delivered sorts before
      all held. */
  ghost predicate Fits(top: int, q: Queue, out: seq<SeqMessage>) {
    && ValidQueue(q) && Increasing(out)
    && (forall e :: e in q.ordering ==> e.number <= top)
    && (forall m :: m in out ==> m.finalSeq <= top)
    && (forall m, e :: m in out && e in q.ordering ==> Less(EntryOf(m), e))
  }

  ghost predicate HistoryFits(calls: seq<Call>) {
    Fits(Top(calls), Play(calls).0, Play(calls).1)
  }

  lemma InsertFits(top: int, q: Queue, out: seq<SeqMessage>, a: AckMessage)
    requires Fits(top, q, out) && a.key !in q.pending && top < a.proposedSeq
    ensures Fits(a.proposedSeq, Enqueue(q, a), out)
  {
    EnqueueKeepsValid(q, a);
  }

  /** All delivered sorts before all that the scan goes over. */
  lemma DeliveredBeforeScanned(q: Queue, m: SeqMessage, x: SeqMessage, e: Entry)
    requires ValidQueue(q) && m.key in q.pending && q.pending[m.key].number <= m.finalSeq
    requires forall e :: e in q.ordering ==> Less(EntryOf(x), e)
    requires e in Resequenced(q, m)
    ensures Less(EntryOf(x), e)
  {
    ResequencedMembers(q, m);
    assert Less(EntryOf(x), Unsequenced(m.key, q.pending[m.key]));
  }

  /** What a matched final number delivers or keeps was scanned. */
  lemma ScannedMembers(q: Queue, m: SeqMessage)
    requires ValidQueue(q) && m.key in q.pending
    ensures var (q', more) := Sequence(q, m);
            && (forall x :: x in more ==> EntryOf(x) in Resequenced(q, m))
            && (forall e :: e in q'.ordering ==> e in Resequenced(q, m))
            && (forall e :: e in Resequenced(q, m) ==> e == EntryOf(m) || e in q.ordering)
  {
    ScanDeliversExactlyUnblocked(q, m);
    ScanSplits(q, m);
    ResequencedMembers(q, m);
  }

  /** Two ordered lists of deliveries, the second all after the first. */
  lemma Appends(out: seq<SeqMessage>, more: seq<SeqMessage>)
    requires Increasing(out) && Increasing(more)
    requires forall x, y :: x in out && y in more ==> Less(EntryOf(x), EntryOf(y))
    ensures Increasing(out + more)
  {
    forall i, j | 0 <= i < j < |out + more| ensures Before((out + more)[i], (out + more)[j]) {
      if i < |out| <= j {
        var x, y := out[i], more[j - |out|];
        assert x in out && y in more;
      }
    }
  }

  lemma SequenceFits(top: int, q: Queue, out: seq<SeqMessage>, m: SeqMessage)
    requires Fits(top, q, out) && m.key in q.pending && q.pending[m.key].number <= m.finalSeq
    ensures Fits(if m.finalSeq > top then m.finalSeq else top, Sequence(q, m).0, out + Sequence(q, m).1)
  {
    var (q', more) := Sequence(q, m);
    ScannedMembers(q, m);
    SequenceKeepsValid(q, m);
    ScanDeliversExactlyUnblocked(q, m);
    forall x, e | x in out && e in Resequenced(q, m) ensures Less(EntryOf(x), e) {
      DeliveredBeforeScanned(q, m, x, e);
    }
    Appends(out, more);
  }

  lemma SequenceCallFits(front: seq<Call>, m: SeqMessage, calls: seq<Call>)
    requires calls == front + [SequenceCall(m)] && RelyAt(calls, |front|) && HistoryFits(front)
    ensures HistoryFits(calls)
  {
    var (q, out) := Play(front);
    assert calls[..|front|] == front;
    if m.key !in q.pending {
      assert out + [] == out;
    } else {
      SequenceFits(Top(front), q, out, m);
    }
  }

  lemma InsertAboveTop(front: seq<Call>, a: AckMessage, calls: seq<Call>)
    requires calls == front + [InsertCall(a)] && RelyAt(calls, |front|)
    ensures Top(front) < a.proposedSeq
  {
    if Top(front) != -1 {
      var i := TopIsBrought(front);
      assert calls[..|front|] == front;
      BroughtPrefix(calls, |front|, i, Top(front));
    }
  }

  lemma InsertCallFits(front: seq<Call>, a: AckMessage, calls: seq<Call>)
    requires calls == front + [InsertCall(a)] && RelyAt(calls, |front|) && HistoryFits(front)
    ensures HistoryFits(calls)
  {
    var (q, out) := Play(front);
    assert calls[..|front|] == front;
    InsertAboveTop(front, a, calls);
    if a.key !in q.pending {
      InsertFits(Top(front), q, out, a);
    }
  }

  lemma {:induction false} RelyFits(calls: seq<Call>)
    requires Rely(calls)
    ensures HistoryFits(calls)
  {
    if calls != [] {
      var front, last := calls[..|calls| - 1], calls[|calls| - 1];
      assert calls == front + [last];
      RelyPrefix(calls, |front|);
      RelyFits(front);
      match last
      case InsertCall(a) => InsertCallFits(front, a, calls);
      case SequenceCall(m) => SequenceCallFits(front, m, calls);
    }
  }

  /** Under that rely, all that the calls deliver, taken together, is strictly increasing
      in final number, sender and message id, and sorts before all that is still held. */
  lemma RelyGuarantee(calls: seq<Call>)
    requires Rely(calls)
    ensures Increasing(Play(calls).1)
    ensures forall m, e :: m in Play(calls).1 && e in Play(calls).0.ordering ==> Less(EntryOf(m), e)
  {
    RelyFits(calls);
  }

  /** Whatever the caller does, the map is exactly the unsequenced part of the ordered set
      and no sequenced message waits at the head. */
  lemma {:induction false} AlwaysValid(calls: seq<Call>)
    ensures ValidQueue(Play(calls).0)
  {
    if calls != [] {
      var front, last := calls[..|calls| - 1], calls[|calls| - 1];
      AlwaysValid(front);
      var q := Play(front).0;
      match last
      case InsertCall(a) => if a.key !in q.pending { EnqueueKeepsValid(q, a); }
      case SequenceCall(m) => SequenceKeepsValid(q, m);
    }
  }

  // ----- nothing lost, nothing invented

  /** The message is held in the queue or has been delivered. */
  ghost predicate HeldOrDelivered(q: Queue, out: seq<SeqMessage>, k: Key) {
    (exists e :: e in q.ordering && e.key == k) || exists m :: m in out && m.key == k
  }

  /** It is so with this final number. */
  ghost predicate FinalHeldOrDelivered(q: Queue, out: seq<SeqMessage>, k: Key, final: u32) {
    || (exists e :: e in q.ordering && e.deliverable && e.key == k && e.number == final)
    || (exists m :: m in out && m.key == k && m.finalSeq == final)
  }

  lemma CutInTwo(s: seq<Entry>, more: seq<SeqMessage>, rest: seq<Entry>, e: Entry)
    requires |more| + |rest| == |s| && rest == s[|more|..] && e in s
    requires forall i :: 0 <= i < |more| ==> s[i] == EntryOf(more[i])
    ensures e in rest || (e.deliverable && MessageOf(e) in more)
  {
    var i :| 0 <= i < |s| && s[i] == e;
    if i < |more| {
      assert more[i] in more;
    } else {
      assert rest[i - |more|] == e;
    }
  }

  /** All that the scan goes over is kept or delivered. */
  lemma ScannedPlaces(q: Queue, m: SeqMessage, e: Entry)
    requires ValidQueue(q) && m.key in q.pending && e in Resequenced(q, m)
    ensures var (q', more) := Sequence(q, m); e in q'.ordering || (e.deliverable && MessageOf(e) in more)
  {
    var (q', more) := Sequence(q, m);
    ScanSplits(q, m);
    CutInTwo(Resequenced(q, m), more, q'.ordering, e);
  }

  /** A Seq for a pending message leaves it held with its final number, or delivers it. */
  lemma OwnPlace(q: Queue, m: SeqMessage)
    requires ValidQueue(q) && m.key in q.pending
    ensures FinalHeldOrDelivered(Sequence(q, m).0, Sequence(q, m).1, m.key, m.finalSeq)
  {
    ResequencedMembers(q, m);
    var e :| e in Resequenced(q, m) && Equivalent(e, EntryOf(m));
    ScannedPlaces(q, m, e);
  }

  /** And it leaves every other message so. */
  lemma OtherPlace(q: Queue, m: SeqMessage, e: Entry)
    requires ValidQueue(q) && m.key in q.pending && e in q.ordering && e != Unsequenced(m.key, q.pending[m.key])
    ensures var (q', more) := Sequence(q, m); e in q'.ordering || (e.deliverable && MessageOf(e) in more)
  {
    ResequencedMembers(q, m);
    ScannedPlaces(q, m, e);
  }

  lemma SequenceLosesNothing(q: Queue, out: seq<SeqMessage>, m: SeqMessage, k: Key)
    requires ValidQueue(q) && HeldOrDelivered(q, out, k)
    ensures HeldOrDelivered(Sequence(q, m).0, out + Sequence(q, m).1, k)
  {
    var (q', more) := Sequence(q, m);
    if x :| x in out && x.key == k {
      assert x in out + more;
    } else if m.key in q.pending {
      var e :| e in q.ordering && e.key == k;
      if e == Unsequenced(m.key, q.pending[m.key]) {
        OwnPlace(q, m);
      } else {
        OtherPlace(q, m, e);
      }
      assert forall x :: x in more ==> x in out + more;
    }
  }

  lemma SequenceLosesNoFinal(q: Queue, out: seq<SeqMessage>, m: SeqMessage, k: Key, final: u32)
    requires ValidQueue(q) && FinalHeldOrDelivered(q, out, k, final)
    ensures FinalHeldOrDelivered(Sequence(q, m).0, out + Sequence(q, m).1, k, final)
  {
    var (q', more) := Sequence(q, m);
    if x :| x in out && x.key == k && x.finalSeq == final {
      assert x in out + more;
    } else if m.key in q.pending {
      var e :| e in q.ordering && e.deliverable && e.key == k && e.number == final;
      OtherPlace(q, m, e);
      assert forall x :: x in more ==> x in out + more;
    }
  }

  lemma InsertLosesNothing(q: Queue, out: seq<SeqMessage>, a: AckMessage, k: Key, final: u32)
    requires ValidQueue(q) && a.key !in q.pending
    ensures HeldOrDelivered(Enqueue(q, a), out, a.key)
    ensures HeldOrDelivered(q, out, k) ==> HeldOrDelivered(Enqueue(q, a), out, k)
    ensures FinalHeldOrDelivered(q, out, k, final) ==> FinalHeldOrDelivered(Enqueue(q, a), out, k, final)
  {
    EnqueueKeepsValid(q, a);
    var e := Unsequenced(a.key, Proposal(a.proposedSeq, a.proposer));
    assert e in Enqueue(q, a).ordering;
  }

  /** One call more loses nothing. */
  lemma CallLosesNothing(calls: seq<Call>, k: Key, final: u32)
    requires calls != []
    ensures var (q, out) := Play(calls[..|calls| - 1]);
            var (q', out') := Play(calls);
            && (HeldOrDelivered(q, out, k) ==> HeldOrDelivered(q', out', k))
            && (FinalHeldOrDelivered(q, out, k, final) ==> FinalHeldOrDelivered(q', out', k, final))
  {
    var front := calls[..|calls| - 1];
    var (q, out) := Play(front);
    AlwaysValid(front);
    match calls[|calls| - 1]
    case InsertCall(a) =>
      if a.key !in q.pending {
        InsertLosesNothing(q, out, a, k, final);
      }
    case SequenceCall(m) =>
      if HeldOrDelivered(q, out, k) {
        SequenceLosesNothing(q, out, m, k);
      }
      if FinalHeldOrDelivered(q, out, k, final) {
        SequenceLosesNoFinal(q, out, m, k, final);
      }
  }

  lemma JustInserted(calls: seq<Call>)
    requires calls != [] && calls[|calls| - 1].InsertCall?
    ensures HeldOrDelivered(Play(calls).0, Play(calls).1, calls[|calls| - 1].ack.key)
  {
    var front, a := calls[..|calls| - 1], calls[|calls| - 1].ack;
    var (q, out) := Play(front);
    AlwaysValid(front);
    if a.key !in q.pending {
      InsertLosesNothing(q, out, a, a.key, 0);
    } else {
      assert Unsequenced(a.key, q.pending[a.key]) in q.ordering;
    }
  }

  /** Nothing is lost over any history: a message inserted is still held or has been
      delivered, whatever other calls there were. */
  lemma {:induction false} NothingLost(calls: seq<Call>, i: nat)
    requires i < |calls| && calls[i].InsertCall?
    ensures HeldOrDelivered(Play(calls).0, Play(calls).1, calls[i].ack.key)
  {
    if i == |calls| - 1 {
      JustInserted(calls);
    } else {
      NothingLost(calls[..|calls| - 1], i);
      CallLosesNothing(calls, calls[i].ack.key, 0);
    }
  }

  lemma MoreDelivered(q: Queue, out: seq<SeqMessage>, more: seq<SeqMessage>, k: Key, final: u32)
    requires FinalHeldOrDelivered(q, more, k, final)
    ensures FinalHeldOrDelivered(q, out + more, k, final)
  {
    if m :| m in more && m.key == k && m.finalSeq == final {
      assert m in out + more;
    }
  }

  lemma JustSequenced(calls: seq<Call>)
    requires calls != [] && calls[|calls| - 1].SequenceCall?
    requires calls[|calls| - 1].msg.key in Play(calls[..|calls| - 1]).0.pending
    ensures var m := calls[|calls| - 1].msg; FinalHeldOrDelivered(Play(calls).0, Play(calls).1, m.key, m.finalSeq)
  {
    var front, m := calls[..|calls| - 1], calls[|calls| - 1].msg;
    var (q, out) := Play(front);
    AlwaysValid(front);
    OwnPlace(q, m);
    MoreDelivered(Sequence(q, m).0, out, Sequence(q, m).1, m.key, m.finalSeq);
  }

  /** And a message sequenced is held with that final number or was delivered with it. */
  lemma {:induction false} NothingSequencedLost(calls: seq<Call>, i: nat)
    requires i < |calls| && calls[i].SequenceCall? && calls[i].msg.key in Play(calls[..i]).0.pending
    ensures FinalHeldOrDelivered(Play(calls).0, Play(calls).1, calls[i].msg.key, calls[i].msg.finalSeq)
  {
    if i == |calls| - 1 {
      JustSequenced(calls);
    } else {
      var front := calls[..|calls| - 1];
      assert front[..i] == calls[..i];
      NothingSequencedLost(front, i);
      CallLosesNothing(calls, calls[i].msg.key, calls[i].msg.finalSeq);
    }
  }

  /** Some call brought the final number m to a message that was pending. */
  ghost predicate WasSequenced(calls: seq<Call>, m: SeqMessage) {
    exists i :: 0 <= i < |calls| && calls[i] == SequenceCall(m) && m.key in Play(calls[..i]).0.pending
  }

  lemma WasSequencedBefore(calls: seq<Call>, n: nat, m: SeqMessage)
    requires n <= |calls| && WasSequenced(calls[..n], m)
    ensures WasSequenced(calls, m)
  {
    var i :| 0 <= i < n && calls[..n][i] == SequenceCall(m) && m.key in Play(calls[..n][..i]).0.pending;
    assert calls[..n][..i] == calls[..i];
  }

  lemma NewFromSequence(q: Queue, out: seq<SeqMessage>, x: SeqMessage, m: SeqMessage)
    requires ValidQueue(q) && m !in out && EntryOf(m) !in q.ordering
    requires m in out + Sequence(q, x).1 || EntryOf(m) in Sequence(q, x).0.ordering
    ensures m == x && x.key in q.pending
  {
    if x.key in q.pending {
      ScannedMembers(q, x);
    }
  }

  /** The message is delivered, or held sequenced. */
  ghost predicate HasFinal(h: (Queue, seq<SeqMessage>), m: SeqMessage) {
    m in h.1 || EntryOf(m) in h.0.ordering
  }

  lemma NoneAtFirst(m: SeqMessage)
    ensures !HasFinal(Play([]), m)
  {
  }

  lemma NewFromInsert(q: Queue, a: AckMessage, m: SeqMessage)
    requires ValidQueue(q) && a.key !in q.pending && EntryOf(m) !in q.ordering
    ensures EntryOf(m) !in Enqueue(q, a).ordering
  {
    EnqueueKeepsValid(q, a);
  }

  lemma CameFromCall(calls: seq<Call>, m: SeqMessage)
    requires calls != [] && HasFinal(Play(calls), m)
    requires ValidQueue(Play(calls[..|calls| - 1]).0) && !HasFinal(Play(calls[..|calls| - 1]), m)
    ensures WasSequenced(calls, m)
  {
    var front := calls[..|calls| - 1];
    var (q, out) := Play(front);
    match calls[|calls| - 1]
    case InsertCall(a) =>
      if a.key !in q.pending {
        NewFromInsert(q, a, m);
      }
    case SequenceCall(x) => NewFromSequence(q, out, x, m);
  }

  lemma {:induction false} PendingWasInserted(calls: seq<Call>, k: Key)
    requires k in Play(calls).0.pending
    ensures var p := Play(calls).0.pending[k]; InsertCall(AckMessage(k, p.number, p.proposer)) in calls
  {
    var front, last := calls[..|calls| - 1], calls[|calls| - 1];
    assert calls == front + [last];
    var was, now := Play(front).0.pending, Play(calls).0.pending;
    if k in was && now[k] == was[k] {
      PendingWasInserted(front, k);
    }
  }

  lemma {:induction false} FinalWasSequenced(calls: seq<Call>, m: SeqMessage)
    requires HasFinal(Play(calls), m)
    ensures WasSequenced(calls, m)
  {
    NoneAtFirst(m);
    var front := calls[..|calls| - 1];
    if HasFinal(Play(front), m) {
      FinalWasSequenced(front, m);
      WasSequencedBefore(calls, |front|, m);
    } else {
      AlwaysValid(front);
      CameFromCall(calls, m);
    }
  }

  /** Nothing is invented: what is delivered, or held sequenced, was sequenced so by a call
      while it was pending, and what is pending was inserted so. */
  lemma NothingInvented(calls: seq<Call>)
    ensures forall m :: m in Play(calls).1 || EntryOf(m) in Play(calls).0.ordering ==> WasSequenced(calls, m)
    ensures forall k :: k in Play(calls).0.pending ==>
              var p := Play(calls).0.pending[k]; InsertCall(AckMessage(k, p.number, p.proposer)) in calls
  {
    var (q, out) := Play(calls);
    forall m | m in out || EntryOf(m) in q.ordering ensures WasSequenced(calls, m) {
      assert HasFinal(Play(calls), m);
      FinalWasSequenced(calls, m);
    }
    forall k | k in q.pending
      ensures InsertCall(AckMessage(k, q.pending[k].number, q.pending[k].proposer)) in calls
    {
      PendingWasInserted(calls, k);
    }
  }

  // ----- the class

  /** The calls made one after the other on a queue. */
  method Replay(calls: seq<Call>) returns (queue: HoldBackQueue, delivered: seq<SeqMessage>)
    ensures fresh(queue) && queue.Valid()
    ensures (queue.Model(), delivered) == Play(calls)
  {
    queue := new HoldBackQueue();
    delivered := [];
    for i := 0 to |calls|
      invariant fresh(queue) && queue.Valid()
      invariant (queue.Model(), delivered) == Play(calls[..i])
    {
      assert calls[..i + 1][..i] == calls[..i];
      match calls[i] {
        case InsertCall(a) =>
          var ok := queue.InsertUndeliverable(a);
        case SequenceCall(m) =>
          var more := queue.SetDeliverable(m);
          delivered := delivered + more;
      }
    }
    assert calls[..|calls|] == calls;
  }
}
