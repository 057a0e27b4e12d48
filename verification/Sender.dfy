/** The sender's side: retransmission until a valid acknowledgement, one acknowledgement
    per process, and the largest proposal as the final number. */
module Senders {
  import opened Wire

  // ----- Client::SendWithAck

  /** What one receive on the client's socket gives. */
  datatype Event = Timeout | Broken | Datagram(buf: Bytes)

  datatype Outcome =
    | Acked(buf: Bytes)   // returned after the validator said stop
    | GaveUp              // returned after the given number of attempts
    | Threw               // a receive failed with something other than a timeout
    | Waiting             // still in the loop when the events end

  const MAX_BACKOFF_MULTIPLIER := 64

  predicate Accepted(e: Event, valid: Bytes -> bool) {
    e.Datagram? && valid(e.buf)
  }

  /** The loop goes round again: a timeout, or a datagram the validator refuses. */
  predicate Retries(e: Event, valid: Bytes -> bool) {
    e.Timeout? || (e.Datagram? && !valid(e.buf))
  }

  ghost predicate AllRetry(events: seq<Event>, valid: Bytes -> bool) {
    forall e :: e in events ==> Retries(e, valid)
  }

  /** How many of the events are timeouts. */
  function Timeouts(events: seq<Event>): nat {
    |set i | 0 <= i < |events| && events[i].Timeout?|
  }

  function Pow2(k: nat): nat {
    if k == 0 then 1 else 2 * Pow2(k - 1)
  }

  /** The backoff multiplier after k timeouts. */
  function Backoff(k: nat): nat {
    if Pow2(k) < MAX_BACKOFF_MULTIPLIER then Pow2(k) else MAX_BACKOFF_MULTIPLIER
  }

  /** Doubling while below the cap never overshoots the cap. */
  lemma BackoffStep(k: nat)
    ensures Backoff(k + 1) == if Backoff(k) < MAX_BACKOFF_MULTIPLIER then 2 * Backoff(k) else Backoff(k)
  {
    if k <= 6 {
      assert Pow2(0) == 1 && Pow2(1) == 2 && Pow2(2) == 4 && Pow2(3) == 8;
      assert Pow2(4) == 16 && Pow2(5) == 32 && Pow2(6) == 64 && Pow2(7) == 128;
    } else {
      Pow2Large(k);
    }
  }

  lemma {:induction false} Pow2Large(k: nat)
    requires k >= 6
    ensures Pow2(k) >= 64
  {
    assert Pow2(1) == 2 && Pow2(2) == 4 && Pow2(3) == 8 && Pow2(4) == 16 && Pow2(5) == 32;
    if k > 6 {
      Pow2Large(k - 1);
    }
  }

  /** The multiplier is 1 until the first timeout and 64 from the sixth on. */
  lemma BackoffValues(k: nat)
    ensures Backoff(k) == 1 <==> k == 0
    ensures Backoff(k) == 64 <==> k >= 6
    ensures 1 <= Backoff(k) <= 64
  {
    if k <= 5 {
      assert Pow2(0) == 1 && Pow2(1) == 2 && Pow2(2) == 4 && Pow2(3) == 8 && Pow2(4) == 16 && Pow2(5) == 32;
    } else {
      Pow2Large(k);
    }
  }

  lemma TimeoutsSnoc(events: seq<Event>, i: nat)
    requires i < |events|
    ensures Timeouts(events[..i + 1]) == Timeouts(events[..i]) + if events[i].Timeout? then 1 else 0
  {
    var more, some := events[..i + 1], events[..i];
    var now := set j | 0 <= j < |more| && more[j].Timeout?;
    var was := set j | 0 <= j < |some| && some[j].Timeout?;
    assert now == if events[i].Timeout? then was + {i} else was;
  }

  /** The validator first accepts at i, after nothing but timeouts and refusals. */
  ghost predicate AckedAt(events: seq<Event>, valid: Bytes -> bool, i: nat) {
    i < |events| && Accepted(events[i], valid) && AllRetry(events[..i], valid)
  }

  lemma NotAcked(events: seq<Event>, valid: Bytes -> bool, b: nat)
    requires b <= |events| && AllRetry(events[..b], valid)
    requires b < |events| ==> events[b].Broken?
    ensures forall i: nat :: !AckedAt(events, valid, i)
  {
    forall i: nat ensures !AckedAt(events, valid, i) {
      if i < b {
        assert events[i] in events[..b];
      } else if b < i < |events| {
        assert events[b] in events[..i];
      }
    }
  }

  /** attempts == 0 means no limit. `used` counts the events consumed, one per send but
      for the send that the loop is waiting on. An unlimited send never gives up: it
      returns exactly when the validator accepts a datagram after nothing but timeouts
      and refused datagrams. */
  method SendWithAck(attempts: nat, events: seq<Event>, valid: Bytes -> bool)
    returns (outcome: Outcome, used: nat, sends: nat, multiplier: nat)
    ensures used <= |events| && (attempts > 0 ==> used <= attempts)
    ensures outcome.Acked? ==>
              used > 0 && AckedAt(events, valid, used - 1) && events[used - 1] == Datagram(outcome.buf)
    ensures outcome.Threw? ==>
              used > 0 && AllRetry(events[..used - 1], valid) && events[used - 1] == Broken
    ensures outcome.GaveUp? ==> used == attempts && attempts > 0 && AllRetry(events[..used], valid)
    ensures outcome.Waiting? ==>
              used == |events| && AllRetry(events[..used], valid) && (attempts > 0 ==> used < attempts)
    ensures sends == if outcome.Waiting? then used + 1 else used
    ensures multiplier == Backoff(Timeouts(events[..used]))
    ensures multiplier == 1 <==> Timeouts(events[..used]) == 0
    ensures multiplier == 64 <==> Timeouts(events[..used]) >= 6
    ensures attempts == 0 ==> (outcome.Acked? <==> exists i: nat :: AckedAt(events, valid, i))
  {
    var left: nat := attempts;
    var unlimited := attempts == 0;
    multiplier, used, sends := 1, 0, 0;
    while unlimited || left > 0
      invariant used <= |events| && sends == used
      invariant AllRetry(events[..used], valid)
      invariant multiplier == Backoff(Timeouts(events[..used]))
      invariant !unlimited ==> left + used == attempts
      decreases |events| - used
    {
      sends := sends + 1;
      if used == |events| {
        NotAcked(events, valid, used);
        BackoffValues(Timeouts(events[..used]));
        return Waiting, used, sends, multiplier;
      }
      var e := events[used];
      TimeoutsSnoc(events, used);
      BackoffStep(Timeouts(events[..used]));
      assert events[..used + 1] == events[..used] + [e];
      used := used + 1;
      if e.Broken? {
        NotAcked(events, valid, used - 1);
        BackoffValues(Timeouts(events[..used]));
        return Threw, used, sends, multiplier;
      }
      if e.Timeout? {
        if multiplier < MAX_BACKOFF_MULTIPLIER {
          multiplier := 2 * multiplier;
        }
      } else if valid(e.buf) {
        assert AckedAt(events, valid, used - 1);
        BackoffValues(Timeouts(events[..used]));
        return Acked(e.buf), used, sends, multiplier;
      }
      left := if unlimited then left else left - 1;
    }
    BackoffValues(Timeouts(events[..used]));
    outcome := GaveUp;
  }

  // ----- LaunchMulticastSender

  /** final is the largest proposal and proposer the lowest process that made it. */
  ghost predicate IsFinalStamp(seqs: seq<u32>, final: u32, proposer: nat) {
    && proposer < |seqs| && seqs[proposer] == final
    && (forall i :: 0 <= i < |seqs| ==> seqs[i] <= final)
    && (forall i :: 0 <= i < proposer ==> seqs[i] < final)
  }

  lemma FinalStampUnique(seqs: seq<u32>, f: u32, p: nat, f': u32, p': nat)
    requires IsFinalStamp(seqs, f, p) && IsFinalStamp(seqs, f', p')
    ensures f == f' && p == p'
  {
  }

  function FinalStamp(seqs: seq<u32>): (r: (u32, nat))
    requires seqs != []
    ensures IsFinalStamp(seqs, r.0, r.1)
  {
    var last := |seqs| - 1;
    if last == 0 then (seqs[0], 0)
    else
      var (f, p) := FinalStamp(seqs[..last]);
      if seqs[last] > f then (seqs[last], last) else (f, p)
  }

  /** The max loop over the recorded proposals. */
  method MaxProposal(seqs: array<u32>) returns (final: u32, proposer: nat)
    requires seqs.Length > 0
    ensures (final, proposer) == FinalStamp(seqs[..])
    ensures IsFinalStamp(seqs[..], final, proposer)
  {
    final, proposer := 0, 0;
    for pid := 0 to seqs.Length
      invariant proposer < seqs.Length && (final == 0 ==> proposer == 0) && (final > 0 ==> seqs[proposer] == final)
      invariant proposer == 0 || proposer < pid
      invariant final > 0 ==> proposer < pid
      invariant forall i :: 0 <= i < pid ==> seqs[i] <= final
      invariant forall i :: 0 <= i < proposer ==> seqs[i] < final
    {
      if seqs[pid] > final {
        final, proposer := seqs[pid], pid;
      }
    }
    FinalStampUnique(seqs[..], final, proposer, FinalStamp(seqs[..]).0, FinalStamp(seqs[..]).1);
  }

  /** The validator of a sender thread: an Ack of its own message by process pid. */
  function AckValidator(k: Key, pid: u32): (valid: Bytes -> bool)
    ensures forall buf :: valid(buf) <==> AckMsgFromBuf(buf).Some? && ValidAckMsg(AckMsgFromBuf(buf).value, k, pid)
  {
    buf => AckMsgFromBuf(buf).Some? && ValidAckMsg(AckMsgFromBuf(buf).value, k, pid)
  }

  function AckEvent(k: Key, pid: u32, number: u32): Event {
    Datagram(Encode(AckMsg(AckMessage(k, number, pid))))
  }

  ghost predicate NoProposal(e: Event, k: Key, pid: u32) {
    !e.Broken? && forall x :: e != AckEvent(k, pid, x)
  }

  /** The events that process pid's client sees bring a genuine proposal for k, and this
      is it: the first datagram that encodes an Ack of k by pid, with no failure before. */
  ghost predicate Proposes(events: seq<Event>, k: Key, pid: u32, number: u32) {
    exists i: nat :: ProposesAt(events, k, pid, number, i)
  }

  ghost predicate ProposesAt(events: seq<Event>, k: Key, pid: u32, number: u32, i: nat) {
    i < |events| && events[i] == AckEvent(k, pid, number)
    && forall j :: 0 <= j < i ==> NoProposal(events[j], k, pid)
  }

  ghost predicate Responds(events: seq<Event>, k: Key, pid: u32) {
    exists x :: Proposes(events, k, pid, x)
  }

  /** What the sender of k makes of the events its client for each process sees: a Seq
      message exactly when every process has sent a matching proposal, with the largest
      of the first such proposals, stamped with the lowest process that made it. */
  ghost predicate Collected(k: Key, streams: seq<seq<Event>>, r: Option<SeqMessage>, recorded: seq<u32>)
    requires |streams| < 0x1_0000_0000
  {
    && (r.Some? <==> forall pid :: 0 <= pid < |streams| ==> Responds(streams[pid], k, pid))
    && (r.Some? ==>
          && r.value.key == k && |recorded| == |streams|
          && IsFinalStamp(recorded, r.value.finalSeq, r.value.finalSeqProposer)
          && forall pid :: 0 <= pid < |streams| ==> Proposes(streams[pid], k, pid, recorded[pid]))
  }

  /** One Data message to process pid, retransmitted until its proposal comes. */
  method SendDataMsg(k: Key, pid: u32, events: seq<Event>) returns (proposed: Option<u32>)
    ensures proposed.Some? ==> Proposes(events, k, pid, proposed.value)
    ensures proposed == None ==> !Responds(events, k, pid)
  {
    var outcome, used, _, _ := SendWithAck(0, events, AckValidator(k, pid));
    if !outcome.Acked? {
      NoneProposed(events, k, pid);
      return None;
    }
    FirstAckProposes(events, k, pid, used - 1);
    proposed := Some(AckMsgFromBuf(outcome.buf).value.msg.proposedSeq);
  }

  /** A sender thread of process k.sender up to the point where it multicasts the Seq
      message. */
  method CollectProposals(k: Key, streams: seq<seq<Event>>) returns (r: Option<SeqMessage>, recorded: seq<u32>)
    requires 0 < |streams| < 0x1_0000_0000
    ensures Collected(k, streams, r, recorded)
  {
    var seqs := new u32[|streams|];
    for pid := 0 to |streams|
      invariant forall j :: 0 <= j < pid ==> Proposes(streams[j], k, j, seqs[j])
    {
      var proposed := SendDataMsg(k, pid, streams[pid]);
      if proposed == None {
        return None, [];
      }
      seqs[pid] := proposed.value;
    }
    forall j | 0 <= j < |streams| ensures Responds(streams[j], k, j) {
      assert Proposes(streams[j], k, j, seqs[j]);
    }
    var final, proposer := MaxProposal(seqs);
    r, recorded := Some(SeqMessage(k, final, proposer)), seqs[..];
  }

  lemma ValidatorAcceptsProposals(e: Event, k: Key, pid: u32)
    ensures Accepted(e, AckValidator(k, pid)) <==> exists x :: e == AckEvent(k, pid, x)
    ensures Accepted(e, AckValidator(k, pid)) ==>
              e == AckEvent(k, pid, AckMsgFromBuf(e.buf).value.msg.proposedSeq)
    ensures Retries(e, AckValidator(k, pid)) <==> NoProposal(e, k, pid)
  {
    if e.Datagram? {
      Separation(e.buf, 0);
      if Accepted(e, AckValidator(k, pid)) {
        var a := AckMsgFromBuf(e.buf).value.msg;
        assert TakenAsAck(e.buf, a, k, pid);
        assert e == AckEvent(k, pid, a.proposedSeq);
      }
      if x :| e == AckEvent(k, pid, x) {
        assert TakenAsAck(e.buf, AckMessage(k, x, pid), k, pid);
      }
    }
  }

  lemma FirstAckProposes(events: seq<Event>, k: Key, pid: u32, i: nat)
    requires AckedAt(events, AckValidator(k, pid), i)
    ensures AckMsgFromBuf(events[i].buf).Some?
    ensures Proposes(events, k, pid, AckMsgFromBuf(events[i].buf).value.msg.proposedSeq)
  {
    var x := AckMsgFromBuf(events[i].buf).value.msg.proposedSeq;
    ValidatorAcceptsProposals(events[i], k, pid);
    forall j | 0 <= j < i ensures NoProposal(events[j], k, pid) {
      assert events[j] in events[..i];
      ValidatorAcceptsProposals(events[j], k, pid);
    }
    assert ProposesAt(events, k, pid, x, i);
  }

  lemma NoneProposed(events: seq<Event>, k: Key, pid: u32)
    requires forall i: nat :: !AckedAt(events, AckValidator(k, pid), i)
    ensures !Responds(events, k, pid)
  {
    if Responds(events, k, pid) {
      var x :| Proposes(events, k, pid, x);
      var i: nat :| ProposesAt(events, k, pid, x, i);
      ValidatorAcceptsProposals(events[i], k, pid);
      forall e | e in events[..i] ensures Retries(e, AckValidator(k, pid)) {
        ValidatorAcceptsProposals(e, k, pid);
      }
      assert AckedAt(events, AckValidator(k, pid), i);
      assert false;
    }
  }

  /** The validator of SendSeqMsg: a SeqAck of the same message. */
  function SeqAckValidator(m: SeqMessage): (valid: Bytes -> bool)
    ensures forall buf :: valid(buf) <==> SeqAckMsgFromBuf(buf).Some? && ValidSeqAckMsg(SeqAckMsgFromBuf(buf).value, m)
  {
    buf => SeqAckMsgFromBuf(buf).Some? && ValidSeqAckMsg(SeqAckMsgFromBuf(buf).value, m)
  }

  function Confirmation(m: SeqMessage): Event {
    Datagram(Encode(SeqAckMsg(SeqAckMessage(m.key))))
  }

  ghost predicate ConfirmsAt(events: seq<Event>, m: SeqMessage, i: nat) {
    i < |events| && events[i] == Confirmation(m)
    && forall j :: 0 <= j < i ==> !events[j].Broken? && events[j] != Confirmation(m)
  }

  /** A SeqAck of m arrives, with no failure before it. */
  ghost predicate Confirms(events: seq<Event>, m: SeqMessage) {
    exists i: nat :: ConfirmsAt(events, m, i)
  }

  /** Exactly the first `told` processes have confirmed, up to one that has not. */
  ghost predicate Announced(m: SeqMessage, streams: seq<seq<Event>>, told: nat) {
    && told <= |streams| && (forall pid :: 0 <= pid < told ==> Confirms(streams[pid], m))
    && (told < |streams| ==> !Confirms(streams[told], m))
  }

  /** One Seq message, retransmitted until it is confirmed. */
  method SendSeqMsg(m: SeqMessage, events: seq<Event>) returns (confirmed: bool)
    ensures confirmed <==> Confirms(events, m)
  {
    var outcome, _, _, _ := SendWithAck(0, events, SeqAckValidator(m));
    ConfirmsIffAcked(events, m);
    confirmed := outcome.Acked?;
  }

  /** The second half of the thread: it tells the processes in order and stays with each
      until that one confirms. */
  method Announce(m: SeqMessage, streams: seq<seq<Event>>) returns (told: nat)
    ensures Announced(m, streams, told)
  {
    told := 0;
    while told < |streams|
      invariant told <= |streams| && forall pid :: 0 <= pid < told ==> Confirms(streams[pid], m)
    {
      var confirmed := SendSeqMsg(m, streams[told]);
      if !confirmed {
        return;
      }
      told := told + 1;
    }
  }

  lemma ValidatorAcceptsConfirmation(e: Event, m: SeqMessage)
    ensures Accepted(e, SeqAckValidator(m)) <==> e == Confirmation(m)
    ensures Retries(e, SeqAckValidator(m)) <==> !e.Broken? && e != Confirmation(m)
  {
    if e.Datagram? {
      Separation(e.buf, 0);
      assert TakenAsSeqAck(e.buf, SeqAckMessage(m.key), m) <==> e == Confirmation(m);
    }
  }

  lemma ConfirmsIffAcked(events: seq<Event>, m: SeqMessage)
    ensures Confirms(events, m) <==> exists i: nat :: AckedAt(events, SeqAckValidator(m), i)
  {
    forall i: nat ensures ConfirmsAt(events, m, i) <==> AckedAt(events, SeqAckValidator(m), i) {
      if i < |events| {
        ValidatorAcceptsConfirmation(events[i], m);
        forall j | 0 <= j < i
          ensures Retries(events[j], SeqAckValidator(m)) <==> !events[j].Broken? && events[j] != Confirmation(m)
        {
          ValidatorAcceptsConfirmation(events[j], m);
        }
        assert forall j :: 0 <= j < i ==> events[j] in events[..i];
      }
    }
  }
}
