/** The ordered set of the hold-back queue: the comparator of pending messages, and the
    set itself as a sequence kept sorted by that comparator. */
module Ordering {
  import opened Wire

  /** A pending message. The payload is not modelled: the comparator ignores it. */
  datatype Entry = Entry(key: Key, number: u32, proposer: u32, deliverable: bool)

  /** operator< of PendingMessage. */
  predicate Less(a: Entry, b: Entry) {
    if a.number != b.number then a.number < b.number
    else if a.deliverable != b.deliverable then !a.deliverable
    else if a.key.sender != b.key.sender then a.key.sender < b.key.sender
    else a.key.msgId < b.key.msgId
  }

  /** What the ordered set takes for the same element. */
  predicate Equivalent(a: Entry, b: Entry) {
    !Less(a, b) && !Less(b, a)
  }

  /** The comparator is a strict weak order, as the set demands; the elements it
      identifies differ at most in the proposer. */
  lemma ComparatorLaws()
    ensures forall a :: !Less(a, a)
    ensures forall a, b, c :: Less(a, b) && Less(b, c) ==> Less(a, c)
    ensures forall a, b :: Equivalent(a, b) <==> a == b.(proposer := a.proposer)
  {
  }

  /** The four keys as one number: the sequence number, then one bit that is 0 for an
      undeliverable message, then the sender, then the message id. */
  function Rank(e: Entry): nat {
    e.number * 0x2_0000_0000_0000_0000 + (if e.deliverable then 0x1_0000_0000_0000_0000 else 0)
    + e.key.sender * 0x1_0000_0000 + e.key.msgId
  }

  lemma LessIsRank(a: Entry, b: Entry)
    ensures Less(a, b) <==> Rank(a) < Rank(b)
  {
  }

  ghost predicate Sorted(s: seq<Entry>) {
    forall i, j :: 0 <= i < j < |s| ==> Less(s[i], s[j])
  }

  // ----- filters

  function Filter(keep: Entry -> bool, s: seq<Entry>): (r: seq<Entry>)
    ensures forall e :: e in r <==> e in s && keep(e)
  {
    if s == [] then []
    else
      var r := Filter(keep, s[..|s| - 1]);
      var last := s[|s| - 1];
      assert s == s[..|s| - 1] + [last];
      if keep(last) then r + [last] else r
  }

  lemma SortedConcat(a: seq<Entry>, b: seq<Entry>)
    requires Sorted(a) && Sorted(b)
    requires forall x, y :: x in a && y in b ==> Less(x, y)
    ensures Sorted(a + b)
  {
  }

  lemma {:induction false} FilterSorted(keep: Entry -> bool, s: seq<Entry>)
    requires Sorted(s)
    ensures Sorted(Filter(keep, s))
  {
    if s != [] {
      var front, last := s[..|s| - 1], s[|s| - 1];
      FilterSorted(keep, front);
      forall e | e in Filter(keep, front) ensures Less(e, last) {
        var i :| 0 <= i < |front| && front[i] == e;
      }
      SortedConcat(Filter(keep, front), [last]);
    }
  }

  lemma {:induction false} FilterAll(keep: Entry -> bool, s: seq<Entry>)
    requires forall e :: e in s ==> keep(e)
    ensures Filter(keep, s) == s
  {
    if s != [] {
      var front := s[..|s| - 1];
      assert forall e :: e in front ==> e in s;
      FilterAll(keep, front);
      assert s == front + [s[|s| - 1]];
    }
  }

  lemma {:induction false} FilterNone(keep: Entry -> bool, s: seq<Entry>)
    requires forall e :: e in s ==> !keep(e)
    ensures Filter(keep, s) == []
  {
    if s != [] {
      assert forall e :: e in s[..|s| - 1] ==> e in s;
      FilterNone(keep, s[..|s| - 1]);
    }
  }

  lemma {:induction false} FilterConcat(keep: Entry -> bool, s: seq<Entry>, t: seq<Entry>)
    ensures Filter(keep, s + t) == Filter(keep, s) + Filter(keep, t)
  {
    if t == [] {
      assert s + t == s;
    } else {
      var front, last := t[..|t| - 1], t[|t| - 1];
      FilterConcat(keep, s, front);
      assert (s + t)[..|s + t| - 1] == s + front && (s + t)[|s + t| - 1] == last;
      assert Filter(keep, s + t) == Filter(keep, s + front) + if keep(last) then [last] else [];
      assert Filter(keep, t) == Filter(keep, front) + if keep(last) then [last] else [];
    }
  }

  lemma FilterTakes(keep: Entry -> bool, s: seq<Entry>, t: seq<Entry>)
    requires (forall e :: e in s ==> keep(e)) && forall e :: e in t ==> !keep(e)
    ensures Filter(keep, s + t) == s
  {
    FilterConcat(keep, s, t);
    FilterAll(keep, s);
    FilterNone(keep, t);
  }

  lemma FilterDrops(keep: Entry -> bool, s: seq<Entry>, t: seq<Entry>)
    requires (forall e :: e in s ==> !keep(e)) && forall e :: e in t ==> keep(e)
    ensures Filter(keep, s + t) == t
  {
    FilterConcat(keep, s, t);
    FilterNone(keep, s);
    FilterAll(keep, t);
  }

  // ----- std::set

  predicate Contains(s: seq<Entry>, e: Entry) {
    exists x | x in s :: Equivalent(x, e)
  }

  /** set::insert: no effect when an equivalent element is there. */
  function Insert(s: seq<Entry>, e: Entry): (r: seq<Entry>)
    ensures Contains(s, e) ==> r == s
    ensures !Contains(s, e) ==> forall x :: x in r <==> x in s || x == e
  {
    if Contains(s, e) then s
    else Filter(x => Less(x, e), s) + [e] + Filter(x => Less(e, x), s)
  }

  /** set::erase by value. */
  function Erase(s: seq<Entry>, e: Entry): (r: seq<Entry>)
    ensures forall x :: x in r <==> x in s && !Equivalent(x, e)
  {
    Filter(x => !Equivalent(x, e), s)
  }

  lemma InsertSorted(s: seq<Entry>, e: Entry)
    requires Sorted(s)
    ensures Sorted(Insert(s, e))
  {
    if !Contains(s, e) {
      var below, above := Filter(x => Less(x, e), s), Filter(x => Less(e, x), s);
      FilterSorted(x => Less(x, e), s);
      FilterSorted(x => Less(e, x), s);
      SortedConcat(below, [e]);
      forall x, y | x in below + [e] && y in above ensures Less(x, y) {
      }
      SortedConcat(below + [e], above);
    }
  }

  lemma SameLeast(s: seq<Entry>, r: seq<Entry>)
    requires Sorted(s) && Sorted(r) && s != []
    requires s[0] in r && forall e :: e in r ==> e in s
    ensures r[0] == s[0]
  {
    var i :| 0 <= i < |r| && r[i] == s[0];
    assert r[0] in s;
    var j :| 0 <= j < |s| && s[j] == r[0];
    assert 0 < i ==> Less(r[0], r[i]);
    assert 0 < j ==> Less(s[0], s[j]);
  }

  /** Adding an unsequenced entry never brings a sequenced one to the head. */
  lemma InsertHead(s: seq<Entry>, e: Entry)
    requires Sorted(s) && !e.deliverable && (s == [] || !s[0].deliverable)
    ensures Insert(s, e) != [] && !Insert(s, e)[0].deliverable
  {
    var below := Filter(x => Less(x, e), s);
    if below != [] {
      FilterSorted(x => Less(x, e), s);
      assert below[0] in s;
      var i :| 0 <= i < |s| && s[i] == below[0];
      assert 0 < i ==> Less(s[0], s[i]);
      SameLeast(s, below);
    }
  }

  lemma EraseSorted(s: seq<Entry>, e: Entry)
    requires Sorted(s)
    ensures Sorted(Erase(s, e))
  {
    FilterSorted(x => !Equivalent(x, e), s);
  }

  // ----- what can be delivered

  /** Sequenced, and numbered strictly below every unsequenced message. */
  predicate Unblocked(e: Entry, s: seq<Entry>) {
    e.deliverable && forall u | u in s && !u.deliverable :: e.number < u.number
  }

  function Released(s: seq<Entry>): (r: seq<Entry>)
    ensures forall e :: e in r <==> e in s && Unblocked(e, s)
  {
    Filter(e => Unblocked(e, s), s)
  }

  function Retained(s: seq<Entry>): (r: seq<Entry>)
    ensures forall e :: e in r <==> e in s && !Unblocked(e, s)
  {
    Filter(e => !Unblocked(e, s), s)
  }

  lemma BeforeStopUnblocked(s: seq<Entry>, i: nat, j: nat)
    requires Sorted(s) && j < i <= |s|
    requires forall x :: 0 <= x < i ==> s[x].deliverable
    requires i < |s| ==> !s[i].deliverable
    ensures Unblocked(s[j], s)
  {
    forall u | u in s && !u.deliverable ensures s[j].number < u.number {
      var x :| 0 <= x < |s| && s[x] == u;
      assert i <= x && Less(s[j], s[x]);
    }
  }

  lemma FromStopBlocked(s: seq<Entry>, i: nat, j: nat)
    requires Sorted(s) && i <= j < |s| && !s[i].deliverable
    ensures !Unblocked(s[j], s)
  {
    assert s[i] in s;
    assert i < j ==> Less(s[i], s[j]);
  }

  /** Where the scan stops: the longest all-sequenced prefix is exactly what no
      unsequenced message blocks. This is what sorting unsequenced messages first
      among equal numbers is for. */
  lemma PrefixIsReleased(s: seq<Entry>, i: nat)
    requires Sorted(s) && i <= |s|
    requires forall j :: 0 <= j < i ==> s[j].deliverable
    requires i < |s| ==> !s[i].deliverable
    ensures Released(s) == s[..i] && Retained(s) == s[i..]
  {
    assert s == s[..i] + s[i..];
    forall e | e in s[..i] ensures Unblocked(e, s) {
      var j :| 0 <= j < i && s[j] == e;
      BeforeStopUnblocked(s, i, j);
    }
    forall e | e in s[i..] ensures !Unblocked(e, s) {
      var j :| i <= j < |s| && s[j] == e;
      FromStopBlocked(s, i, j);
    }
    CutAtStop(s, s[..i], s[i..]);
  }

  lemma CutAtStop(s: seq<Entry>, a: seq<Entry>, b: seq<Entry>)
    requires s == a + b
    requires (forall e :: e in a ==> Unblocked(e, s)) && forall e :: e in b ==> !Unblocked(e, s)
    ensures Released(s) == a && Retained(s) == b
  {
    FilterTakes(e => Unblocked(e, s), a, b);
    FilterDrops(e => !Unblocked(e, s), a, b);
  }

  lemma ReleasedSorted(s: seq<Entry>)
    requires Sorted(s)
    ensures Sorted(Released(s)) && Sorted(Retained(s))
  {
    FilterSorted(e => Unblocked(e, s), s);
    FilterSorted(e => !Unblocked(e, s), s);
  }

  /** Released and retained are the whole set in its order, and the retained part is
      empty or headed by an unsequenced message. */
  lemma ReleasedPlusRetained(s: seq<Entry>)
    requires Sorted(s)
    ensures Released(s) + Retained(s) == s
    ensures Retained(s) == [] || !Retained(s)[0].deliverable
  {
    var i := 0;
    while i < |s| && s[i].deliverable
      invariant 0 <= i <= |s|
      invariant forall j :: 0 <= j < i ==> s[j].deliverable
    {
      i := i + 1;
    }
    PrefixIsReleased(s, i);
  }
}
