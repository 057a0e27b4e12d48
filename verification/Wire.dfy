/** The four datagrams of the protocol and their wire format: structs of unsigned
    32-bit words, each word in network byte order (most significant byte first). */
module Wire {

  type u32 = x: int | 0 <= x < 0x1_0000_0000
  type byte = x: int | 0 <= x < 256
  type Bytes = seq<byte>

  datatype Option<+T> = None | Some(value: T)

  /** (sender, msg_id) identifies a multicast message. */
  datatype Key = Key(sender: u32, msgId: u32)

  datatype DataMessage = DataMessage(key: Key, data: u32)
  datatype AckMessage = AckMessage(key: Key, proposedSeq: u32, proposer: u32)
  datatype SeqMessage = SeqMessage(key: Key, finalSeq: u32, finalSeqProposer: u32)
  datatype SeqAckMessage = SeqAckMessage(key: Key)

  /** A decoded struct together with its type field. */
  datatype Tagged<+M> = Tagged(tag: u32, msg: M)

  datatype Message =
    | DataMsg(data: DataMessage)
    | AckMsg(ack: AckMessage)
    | SeqMsg(final: SeqMessage)
    | SeqAckMsg(seqAck: SeqAckMessage)

  const DATA_TYPE: u32 := 1
  const ACK_TYPE: u32 := 2
  const SEQ_TYPE: u32 := 3
  const SEQ_ACK_TYPE: u32 := 4

  // ----- words

  /** htonl followed by the bytes of the word as they lie in memory. */
  function PutWord(x: u32): (b: Bytes)
    ensures |b| == 4
  {
    [x / 0x100_0000, x / 0x1_0000 % 0x100, x / 0x100 % 0x100, x % 0x100]
  }

  function GetWord(a: byte, b: byte, c: byte, d: byte): (x: u32) {
    a as int * 0x100_0000 + b as int * 0x1_0000 + c as int * 0x100 + d as int
  }

  /** ntohl of the i-th word of a buffer. */
  function Word(buf: Bytes, i: nat): (x: u32)
    requires 4 * i + 4 <= |buf|
  {
    GetWord(buf[4 * i], buf[4 * i + 1], buf[4 * i + 2], buf[4 * i + 3])
  }

  function PutWords(ws: seq<u32>): (b: Bytes)
    ensures |b| == 4 * |ws|
  {
    if ws == [] then [] else PutWord(ws[0]) + PutWords(ws[1..])
  }

  lemma WordOfPutWord(x: u32)
    ensures Word(PutWord(x), 0) == x
  {
    var a, b := x / 0x1_0000, x / 0x100;
    assert b == a * 0x100 + b % 0x100 && a == (x / 0x100_0000) * 0x100 + a % 0x100;
  }

  lemma PutWordOfGetWord(a: byte, b: byte, c: byte, d: byte)
    ensures PutWord(GetWord(a, b, c, d)) == [a, b, c, d]
  {
    var x: int := GetWord(a, b, c, d);
    assert x / 0x100 == a as int * 0x1_0000 + b as int * 0x100 + c as int;
    assert x / 0x1_0000 == a as int * 0x100 + b as int;
    assert x / 0x100_0000 == a as int;
  }

  lemma WordOfTail(buf: Bytes, i: nat)
    requires 4 * i + 8 <= |buf|
    ensures Word(buf[4..], i) == Word(buf, i + 1)
  {
  }

  lemma {:induction false} WordOfPutWords(ws: seq<u32>, i: nat)
    requires i < |ws|
    ensures Word(PutWords(ws), i) == ws[i]
  {
    var b, head, rest := PutWords(ws), PutWord(ws[0]), PutWords(ws[1..]);
    assert b == head + rest;
    if i == 0 {
      assert b[0] == head[0] && b[1] == head[1] && b[2] == head[2] && b[3] == head[3];
      WordOfPutWord(ws[0]);
    } else {
      WordOfPutWords(ws[1..], i - 1);
      assert b[4..] == rest;
      WordOfTail(b, i - 1);
    }
  }

  /** The words of a buffer put back are the buffer. */
  lemma {:induction false} PutWordsOfWords(buf: Bytes, ws: seq<u32>)
    requires |buf| == 4 * |ws|
    requires forall i :: 0 <= i < |ws| ==> ws[i] == Word(buf, i)
    ensures PutWords(ws) == buf
  {
    if ws != [] {
      var tail := buf[4..];
      assert buf == [buf[0], buf[1], buf[2], buf[3]] + tail;
      PutWordOfGetWord(buf[0], buf[1], buf[2], buf[3]);
      assert ws[0] == Word(buf, 0);
      forall i | 0 <= i < |ws[1..]| ensures ws[1..][i] == Word(tail, i) {
        WordOfTail(buf, i);
      }
      PutWordsOfWords(tail, ws[1..]);
    }
  }

  // ----- encoders (the bytes handed to sendto) and decoders

  function Tag(m: Message): (t: u32) {
    match m
    case DataMsg(_) => DATA_TYPE
    case AckMsg(_) => ACK_TYPE
    case SeqMsg(_) => SEQ_TYPE
    case SeqAckMsg(_) => SEQ_ACK_TYPE
  }

  function Fields(m: Message): (ws: seq<u32>) {
    match m
    case DataMsg(d) => [Tag(m), d.key.sender, d.key.msgId, d.data]
    case AckMsg(a) => [Tag(m), a.key.sender, a.key.msgId, a.proposedSeq, a.proposer]
    case SeqMsg(s) => [Tag(m), s.key.sender, s.key.msgId, s.finalSeq, s.finalSeqProposer]
    case SeqAckMsg(s) => [Tag(m), s.key.sender, s.key.msgId]
  }

  function Encode(m: Message): Bytes {
    PutWords(Fields(m))
  }

  function MessageTypeFromBuf(buf: Bytes): Option<u32> {
    if |buf| < 4 then None else Some(Word(buf, 0))
  }

  function DataMsgFromBuf(buf: Bytes): Option<Tagged<DataMessage>> {
    if |buf| != 16 then None
    else Some(Tagged(Word(buf, 0), DataMessage(Key(Word(buf, 1), Word(buf, 2)), Word(buf, 3))))
  }

  function AckMsgFromBuf(buf: Bytes): Option<Tagged<AckMessage>> {
    if |buf| != 20 then None
    else Some(Tagged(Word(buf, 0), AckMessage(Key(Word(buf, 1), Word(buf, 2)), Word(buf, 3), Word(buf, 4))))
  }

  function SeqMsgFromBuf(buf: Bytes): Option<Tagged<SeqMessage>> {
    if |buf| != 20 then None
    else Some(Tagged(Word(buf, 0), SeqMessage(Key(Word(buf, 1), Word(buf, 2)), Word(buf, 3), Word(buf, 4))))
  }

  function SeqAckMsgFromBuf(buf: Bytes): Option<Tagged<SeqAckMessage>> {
    if |buf| != 12 then None
    else Some(Tagged(Word(buf, 0), SeqAckMessage(Key(Word(buf, 1), Word(buf, 2)))))
  }

  predicate ValidDataMsg(m: Tagged<DataMessage>, processCount: nat) {
    m.tag == DATA_TYPE && m.msg.key.sender < processCount
  }

  predicate ValidAckMsg(m: Tagged<AckMessage>, expKey: Key, expProposer: u32) {
    m.tag == ACK_TYPE && m.msg.key == expKey && m.msg.proposer == expProposer
  }

  predicate ValidSeqMsg(m: Tagged<SeqMessage>, processCount: nat) {
    m.tag == SEQ_TYPE && m.msg.key.sender < processCount && m.msg.finalSeqProposer < processCount
  }

  predicate ValidSeqAckMsg(m: Tagged<SeqAckMessage>, seqMsg: SeqMessage) {
    m.tag == SEQ_ACK_TYPE && m.msg.key == seqMsg.key
  }

  // What a receiver takes a buffer to be: decoded and validated, as the handlers do.

  predicate TakenAsData(buf: Bytes, d: DataMessage, processCount: nat) {
    DataMsgFromBuf(buf).Some? && ValidDataMsg(DataMsgFromBuf(buf).value, processCount)
    && DataMsgFromBuf(buf).value.msg == d
  }

  predicate TakenAsAck(buf: Bytes, a: AckMessage, expKey: Key, expProposer: u32) {
    AckMsgFromBuf(buf).Some? && ValidAckMsg(AckMsgFromBuf(buf).value, expKey, expProposer)
    && AckMsgFromBuf(buf).value.msg == a
  }

  predicate TakenAsSeq(buf: Bytes, m: SeqMessage, processCount: nat) {
    SeqMsgFromBuf(buf).Some? && ValidSeqMsg(SeqMsgFromBuf(buf).value, processCount)
    && SeqMsgFromBuf(buf).value.msg == m
  }

  predicate TakenAsSeqAck(buf: Bytes, a: SeqAckMessage, seqMsg: SeqMessage) {
    SeqAckMsgFromBuf(buf).Some? && ValidSeqAckMsg(SeqAckMsgFromBuf(buf).value, seqMsg)
    && SeqAckMsgFromBuf(buf).value.msg == a
  }

  lemma EncodedWords(m: Message)
    ensures |Encode(m)| == 4 * |Fields(m)|
    ensures forall i :: 0 <= i < |Fields(m)| ==> Word(Encode(m), i) == Fields(m)[i]
  {
    forall i | 0 <= i < |Fields(m)| ensures Word(Encode(m), i) == Fields(m)[i] {
      WordOfPutWords(Fields(m), i);
    }
  }

  /** Decoding an encoded datagram gives its type and its fields back. */
  lemma RoundTrip(m: Message)
    ensures MessageTypeFromBuf(Encode(m)) == Some(Tag(m))
    ensures m.DataMsg? ==> DataMsgFromBuf(Encode(m)) == Some(Tagged(DATA_TYPE, m.data))
    ensures m.AckMsg? ==> AckMsgFromBuf(Encode(m)) == Some(Tagged(ACK_TYPE, m.ack))
    ensures m.SeqMsg? ==> SeqMsgFromBuf(Encode(m)) == Some(Tagged(SEQ_TYPE, m.final))
    ensures m.SeqAckMsg? ==> SeqAckMsgFromBuf(Encode(m)) == Some(Tagged(SEQ_ACK_TYPE, m.seqAck))
  {
    EncodedWords(m);
    var f := Fields(m);
    assert f[0] == Tag(m);
    assert Word(Encode(m), 0) == f[0] && Word(Encode(m), 1) == f[1] && Word(Encode(m), 2) == f[2];
    assert !m.SeqAckMsg? ==> Word(Encode(m), 3) == f[3];
    assert m.AckMsg? || m.SeqMsg? ==> Word(Encode(m), 4) == f[4];
  }

  /** A buffer is taken for a datagram of some kind exactly when it is the encoding of
      that datagram and the datagram meets the receiver's expectations. So no encoding of
      one kind passes for another, not even Ack for Seq, which have equal sizes. */
  lemma Separation(buf: Bytes, n: nat)
    ensures forall d :: TakenAsData(buf, d, n) <==> buf == Encode(DataMsg(d)) && d.key.sender < n
    ensures forall a, k, p ::
              TakenAsAck(buf, a, k, p) <==> buf == Encode(AckMsg(a)) && a.key == k && a.proposer == p
    ensures forall m :: TakenAsSeq(buf, m, n) <==>
                        buf == Encode(SeqMsg(m)) && m.key.sender < n && m.finalSeqProposer < n
    ensures forall a, m :: TakenAsSeqAck(buf, a, m) <==> buf == Encode(SeqAckMsg(a)) && a.key == m.key
  {
    forall d ensures TakenAsData(buf, d, n) <==> buf == Encode(DataMsg(d)) && d.key.sender < n {
      if buf == Encode(DataMsg(d)) { RoundTrip(DataMsg(d)); }
      if TakenAsData(buf, d, n) { PutWordsOfWords(buf, Fields(DataMsg(d))); }
    }
    forall a, k, p
      ensures TakenAsAck(buf, a, k, p) <==> buf == Encode(AckMsg(a)) && a.key == k && a.proposer == p
    {
      if buf == Encode(AckMsg(a)) { RoundTrip(AckMsg(a)); }
      if TakenAsAck(buf, a, k, p) { PutWordsOfWords(buf, Fields(AckMsg(a))); }
    }
    forall m
      ensures TakenAsSeq(buf, m, n) <==>
              buf == Encode(SeqMsg(m)) && m.key.sender < n && m.finalSeqProposer < n
    {
      if buf == Encode(SeqMsg(m)) { RoundTrip(SeqMsg(m)); }
      if TakenAsSeq(buf, m, n) { PutWordsOfWords(buf, Fields(SeqMsg(m))); }
    }
    forall a, m ensures TakenAsSeqAck(buf, a, m) <==> buf == Encode(SeqAckMsg(a)) && a.key == m.key {
      if buf == Encode(SeqAckMsg(a)) { RoundTrip(SeqAckMsg(a)); }
      if TakenAsSeqAck(buf, a, m) { PutWordsOfWords(buf, Fields(SeqAckMsg(a))); }
    }
  }

  /** Distinct datagrams have distinct encodings. */
  lemma EncodeInjective(a: Message, b: Message)
    requires Encode(a) == Encode(b)
    ensures a == b
  {
    RoundTrip(a);
    RoundTrip(b);
  }

  // ----- what the bytes stand for

  /** A byte string read as one numeral in base 256, most significant byte first. */
  function Numeral(b: Bytes): nat {
    if b == [] then 0 else 256 * Numeral(b[..|b| - 1]) + b[|b| - 1]
  }

  /** Words read as one numeral in base 2^32, most significant word first. */
  function WordsNumeral(ws: seq<u32>): nat {
    if ws == [] then 0 else 0x1_0000_0000 * WordsNumeral(ws[..|ws| - 1]) + ws[|ws| - 1]
  }

  lemma NumeralSnoc(b: Bytes, x: byte)
    ensures Numeral(b + [x]) == 256 * Numeral(b) + x
  {
    assert (b + [x])[..|b|] == b;
  }

  lemma NumeralWord(b: Bytes, x: u32)
    ensures Numeral(b + PutWord(x)) == 0x1_0000_0000 * Numeral(b) + x
  {
    var w := PutWord(x);
    NumeralSnoc(b, w[0]);
    NumeralSnoc(b + [w[0]], w[1]);
    NumeralSnoc(b + [w[0]] + [w[1]], w[2]);
    NumeralSnoc(b + [w[0]] + [w[1]] + [w[2]], w[3]);
    assert b + w == b + [w[0]] + [w[1]] + [w[2]] + [w[3]];
    WordOfPutWord(x);
  }

  lemma {:induction false} PutWordsSnoc(ws: seq<u32>, x: u32)
    ensures PutWords(ws + [x]) == PutWords(ws) + PutWord(x)
  {
    if ws == [] {
      assert ws + [x] == [x] && [x][1..] == [];
    } else {
      PutWordsSnoc(ws[1..], x);
      assert (ws + [x])[1..] == ws[1..] + [x];
    }
  }

  lemma {:induction false} NumeralWords(ws: seq<u32>)
    ensures Numeral(PutWords(ws)) == WordsNumeral(ws)
  {
    if ws != [] {
      var front, last := ws[..|ws| - 1], ws[|ws| - 1];
      NumeralWords(front);
      assert ws == front + [last];
      PutWordsSnoc(front, last);
      NumeralWord(PutWords(front), last);
    }
  }

  lemma WordsNumeralOf(a: u32, b: u32, c: u32, d: u32, e: u32)
    ensures WordsNumeral([a, b, c]) == a * 0x1_0000_0000_0000_0000 + b * 0x1_0000_0000 + c
    ensures WordsNumeral([a, b, c, d]) ==
            a * 0x1_0000_0000_0000_0000_0000_0000 + b * 0x1_0000_0000_0000_0000 + c * 0x1_0000_0000 + d
    ensures WordsNumeral([a, b, c, d, e]) ==
            a * 0x1_0000_0000_0000_0000_0000_0000_0000_0000 + b * 0x1_0000_0000_0000_0000_0000_0000
            + c * 0x1_0000_0000_0000_0000 + d * 0x1_0000_0000 + e
  {
    assert [a][..0] == [] && [a, b][..1] == [a] && [a, b, c][..2] == [a, b];
    assert [a, b, c, d][..3] == [a, b, c] && [a, b, c, d, e][..4] == [a, b, c, d];
    assert WordsNumeral([a]) == a;
    assert WordsNumeral([a, b]) == a * 0x1_0000_0000 + b;
  }

  /** The datagrams byte for byte: so many bytes, which read as one numeral are the type
      number, the sender, the message id and the other fields, each of 32 bits. */
  lemma EncodeNumeral(m: Message)
    ensures m.DataMsg? ==>
              && |Encode(m)| == 16
              && Numeral(Encode(m)) ==
                 1 * 0x1_0000_0000_0000_0000_0000_0000 + m.data.key.sender * 0x1_0000_0000_0000_0000
                 + m.data.key.msgId * 0x1_0000_0000 + m.data.data
    ensures m.AckMsg? ==>
              && |Encode(m)| == 20
              && Numeral(Encode(m)) ==
                 2 * 0x1_0000_0000_0000_0000_0000_0000_0000_0000 + m.ack.key.sender * 0x1_0000_0000_0000_0000_0000_0000
                 + m.ack.key.msgId * 0x1_0000_0000_0000_0000 + m.ack.proposedSeq * 0x1_0000_0000 + m.ack.proposer
    ensures m.SeqMsg? ==>
              && |Encode(m)| == 20
              && Numeral(Encode(m)) ==
                 3 * 0x1_0000_0000_0000_0000_0000_0000_0000_0000
                 + m.final.key.sender * 0x1_0000_0000_0000_0000_0000_0000
                 + m.final.key.msgId * 0x1_0000_0000_0000_0000
                 + m.final.finalSeq * 0x1_0000_0000 + m.final.finalSeqProposer
    ensures m.SeqAckMsg? ==>
              && |Encode(m)| == 12
              && Numeral(Encode(m)) ==
                 4 * 0x1_0000_0000_0000_0000 + m.seqAck.key.sender * 0x1_0000_0000 + m.seqAck.key.msgId
  {
    var ws := Fields(m);
    NumeralWords(ws);
    WordsNumeralOf(ws[0], ws[1], ws[2], if |ws| > 3 then ws[3] else 0, if |ws| > 4 then ws[4] else 0);
  }

  /** Length and numeral determine the bytes. */
  lemma {:induction false} NumeralInjective(a: Bytes, b: Bytes)
    requires |a| == |b| && Numeral(a) == Numeral(b)
    ensures a == b
  {
    if a != [] {
      var x, y := a[..|a| - 1], b[..|b| - 1];
      assert Numeral(x) == Numeral(y) && a[|a| - 1] == b[|b| - 1];
      NumeralInjective(x, y);
      assert a == x + [a[|a| - 1]] && b == y + [b[|b| - 1]];
    }
  }
}
