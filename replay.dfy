/**
  What processing a batch of commits delivers and where it leaves the cursor
  (src/index.js:93-131), stated on values: the methods of module Forwarder
  are proved against these functions.
 */
module Replay {
  import opened CursorStore

  /** An event's body, opaque to the forwarder. */
  type Payload = string

  /** A commit as far as processing depends on it: its sequence and its events' bodies, in order. */
  datatype CommitData = CommitData(sequence: int, payloads: seq<Payload>)

  /** An event as it is posted: its body and the tags `sequence` and `index` set on it. */
  datatype Delivery = Delivery(payload: Payload, sequence: int, index: int)

  function Clamp(k: int, n: nat): (r: nat)
    ensures r <= n
    ensures 0 <= k <= n ==> r == k
  {
    if k < 0 then 0 else if k > n then n else k
  }

  /**
    `xs.filter((x, i) => i > index)` on the elements of `xs`, the first being at
    position `pos`: what it keeps is the suffix after position `index`.
   */
  function KeepAfter<T>(xs: seq<T>, index: int, pos: int): (r: seq<T>)
    ensures r == xs[Clamp(index + 1 - pos, |xs|)..]
    decreases |xs|
  {
    if xs == [] then []
    else (if pos > index then [xs[0]] else []) + KeepAfter(xs[1..], index, pos + 1)
  }

  /** The events of a commit at positions greater than the cursor's index (src/index.js:114-115). */
  function Unprocessed<T>(xs: seq<T>, index: int): seq<T> {
    KeepAfter(xs, index, 0)
  }

  /** The tags of `.map((event, index) => ...)`: each kept event gets its position in the kept list. */
  function Tagged(payloads: seq<Payload>, sequence: int): (r: seq<Delivery>)
    ensures |r| == |payloads|
    ensures forall k :: 0 <= k < |r| ==> r[k] == Delivery(payloads[k], sequence, k)
  {
    seq(|payloads|, k requires 0 <= k < |payloads| => Delivery(payloads[k], sequence, k))
  }

  /** What one commit delivers from cursor `cur`, in delivery order. */
  function CommitDeliveries(cur: CursorRecord, c: CommitData): seq<Delivery> {
    if c.sequence <= cur.sequence then [] else Tagged(Unprocessed(c.payloads, cur.index), c.sequence)
  }

  /**
    A commit no newer than the cursor delivers nothing; a newer one delivers its
    events after position `cur.index`, in order, each tagged with the commit's
    sequence and its position among the delivered ones.
   */
  lemma CommitDeliveriesShape(cur: CursorRecord, c: CommitData)
    ensures c.sequence <= cur.sequence ==> CommitDeliveries(cur, c) == []
    ensures c.sequence > cur.sequence ==>
      var r := CommitDeliveries(cur, c);
      var start := Clamp(cur.index + 1, |c.payloads|);
      && |r| == |c.payloads| - start
      && forall k :: 0 <= k < |r| ==> r[k] == Delivery(c.payloads[start + k], c.sequence, k)
  {
  }

  /** The cursor after one commit: unchanged when skipped, otherwise (commit.sequence, -1). */
  function AfterCommit(cur: CursorRecord, c: CommitData): CursorRecord {
    if c.sequence <= cur.sequence then cur else CursorRecord(c.sequence, -1)
  }

  /** What a batch delivers, commit after commit in batch order. */
  function BatchDeliveries(cur: CursorRecord, cs: seq<CommitData>): seq<Delivery>
    decreases |cs|
  {
    if cs == [] then [] else CommitDeliveries(cur, cs[0]) + BatchDeliveries(AfterCommit(cur, cs[0]), cs[1..])
  }

  /** The cursor after a batch. */
  function BatchCursor(cur: CursorRecord, cs: seq<CommitData>): CursorRecord
    decreases |cs|
  {
    if cs == [] then cur else BatchCursor(AfterCommit(cur, cs[0]), cs[1..])
  }

  /**
    The cursor's sequence never goes down over a batch: it ends as the largest of
    the starting sequence and the batch's sequences. It moves only if some
    commit is newer, and then the index is reset.
   */
  lemma {:induction false} BatchCursorBounds(cur: CursorRecord, cs: seq<CommitData>)
    ensures BatchCursor(cur, cs).sequence >= cur.sequence
    ensures forall i :: 0 <= i < |cs| ==> cs[i].sequence <= BatchCursor(cur, cs).sequence
    ensures BatchCursor(cur, cs).sequence == cur.sequence ||
            exists i :: 0 <= i < |cs| && BatchCursor(cur, cs).sequence == cs[i].sequence
    ensures (forall i :: 0 <= i < |cs| ==> cs[i].sequence <= cur.sequence) ==> BatchCursor(cur, cs) == cur
    ensures (exists i :: 0 <= i < |cs| && cs[i].sequence > cur.sequence) ==> BatchCursor(cur, cs).index == -1
    decreases |cs|
  {
    if cs != [] {
      BatchCursorBounds(AfterCommit(cur, cs[0]), cs[1..]);
      assert forall i :: 1 <= i < |cs| ==> cs[i] == cs[1..][i - 1];
    }
  }

  /** Processing a batch is processing its first part, then the rest from where the first part left the cursor. */
  lemma {:induction false} BatchSplit(cur: CursorRecord, a: seq<CommitData>, b: seq<CommitData>)
    ensures BatchDeliveries(cur, a + b) == BatchDeliveries(cur, a) + BatchDeliveries(BatchCursor(cur, a), b)
    ensures BatchCursor(cur, a + b) == BatchCursor(BatchCursor(cur, a), b)
    decreases |a|
  {
    if a != [] {
      assert (a + b)[0] == a[0];
      assert (a + b)[1..] == a[1..] + b;
      BatchSplit(AfterCommit(cur, a[0]), a[1..], b);
    } else {
      assert a + b == b;
    }
  }

  /** Processing one more commit after a batch. */
  lemma BatchSnoc(cur: CursorRecord, cs: seq<CommitData>, c: CommitData)
    ensures BatchDeliveries(cur, cs + [c]) == BatchDeliveries(cur, cs) + CommitDeliveries(BatchCursor(cur, cs), c)
    ensures BatchCursor(cur, cs + [c]) == AfterCommit(BatchCursor(cur, cs), c)
  {
    BatchSplit(cur, cs, [c]);
    var mid := BatchCursor(cur, cs);
    assert [c][1..] == [];
    assert BatchDeliveries(mid, [c]) == CommitDeliveries(mid, c) + BatchDeliveries(AfterCommit(mid, c), []);
  }

  /** One more commit of a batch, stated on prefixes of the batch. */
  lemma BatchPrefixStep(cur: CursorRecord, cs: seq<CommitData>, i: nat)
    requires i < |cs|
    ensures BatchDeliveries(cur, cs[..i + 1]) == BatchDeliveries(cur, cs[..i]) + CommitDeliveries(BatchCursor(cur, cs[..i]), cs[i])
    ensures BatchCursor(cur, cs[..i + 1]) == AfterCommit(BatchCursor(cur, cs[..i]), cs[i])
  {
    assert cs[..i + 1] == cs[..i] + [cs[i]];
    BatchSnoc(cur, cs[..i], cs[i]);
  }

  /** Commits no newer than the cursor deliver nothing and leave the cursor alone. */
  lemma {:induction false} AlreadyProcessedSkipped(cur: CursorRecord, cs: seq<CommitData>)
    requires forall i :: 0 <= i < |cs| ==> cs[i].sequence <= cur.sequence
    ensures BatchDeliveries(cur, cs) == []
    ensures BatchCursor(cur, cs) == cur
    decreases |cs|
  {
    if cs != [] {
      AlreadyProcessedSkipped(cur, cs[1..]);
    }
  }

  /** Already processed commits at the head of a batch change nothing about the rest. */
  lemma SkipAhead(cur: CursorRecord, processed: seq<CommitData>, rest: seq<CommitData>)
    requires forall i :: 0 <= i < |processed| ==> processed[i].sequence <= cur.sequence
    ensures BatchDeliveries(cur, processed + rest) == BatchDeliveries(cur, rest)
    ensures BatchCursor(cur, processed + rest) == BatchCursor(cur, rest)
  {
    BatchSplit(cur, processed, rest);
    AlreadyProcessedSkipped(cur, processed);
  }

  /** Every event of each commit, tagged, commit after commit. */
  function AllTagged(cs: seq<CommitData>): seq<Delivery>
    decreases |cs|
  {
    if cs == [] then [] else Tagged(cs[0].payloads, cs[0].sequence) + AllTagged(cs[1..])
  }

  predicate StrictlyIncreasing(cs: seq<CommitData>) {
    forall i, j :: 0 <= i < j < |cs| ==> cs[i].sequence < cs[j].sequence
  }

  /**
    The cursor's index only trims the first commit newer than the cursor: in a
    batch of increasing sequences, every later commit is delivered in full.
   */
  lemma {:induction false} StaleIndexOnlyFirst(cur: CursorRecord, cs: seq<CommitData>)
    requires |cs| > 0 && StrictlyIncreasing(cs) && cs[0].sequence > cur.sequence
    ensures BatchDeliveries(cur, cs) ==
      Tagged(Unprocessed(cs[0].payloads, cur.index), cs[0].sequence) + AllTagged(cs[1..])
    ensures BatchCursor(cur, cs) == CursorRecord(cs[|cs| - 1].sequence, -1)
    decreases |cs|
  {
    if |cs| > 1 {
      var next := CursorRecord(cs[0].sequence, -1);
      StaleIndexOnlyFirst(next, cs[1..]);
      assert Unprocessed(cs[1].payloads, -1) == cs[1].payloads;
      assert AllTagged(cs[1..]) == Tagged(cs[1].payloads, cs[1].sequence) + AllTagged(cs[2..]);
    }
  }

  function PayloadsOf(ds: seq<Delivery>): seq<Payload> {
    seq(|ds|, k requires 0 <= k < |ds| => ds[k].payload)
  }

  lemma EmptyAppend<T>(a: seq<T>, b: seq<T>)
    requires a == []
    ensures a + b == b
  {
  }

  lemma AppendEmpty<T>(a: seq<T>)
    ensures a + [] == a
  {
  }

  lemma AppendTail<T>(a: seq<T>, b: seq<T>)
    requires a != []
    ensures (a + b)[0] == a[0] && (a + b)[1..] == a[1..] + b
  {
  }

  lemma SplitAt<T>(s: seq<T>, k: nat)
    requires k <= |s|
    ensures s[..k] + s[k..] == s
  {
  }

  lemma PayloadsOfTagged(payloads: seq<Payload>, sequence: int)
    ensures PayloadsOf(Tagged(payloads, sequence)) == payloads
  {
  }

  lemma PayloadsOfPrefix(ds: seq<Delivery>, k: nat)
    requires k <= |ds|
    ensures PayloadsOf(ds[..k]) == PayloadsOf(ds)[..k]
  {
  }

  /**
    Resuming after a crash in the middle of a commit: after `k` deliveries the
    persisted cursor is (sequence, index + k), and processing the same commit
    again from there delivers exactly the bodies not yet delivered, but tags
    them again from index 0.
   */
  lemma ResumeMidCommit(cur: CursorRecord, c: CommitData, k: nat)
    requires c.sequence > cur.sequence && cur.index >= -1
    requires k <= |CommitDeliveries(cur, c)|
    ensures var resumed := CursorRecord(cur.sequence, cur.index + k);
      && PayloadsOf(CommitDeliveries(cur, c)[..k]) + PayloadsOf(CommitDeliveries(resumed, c))
         == PayloadsOf(CommitDeliveries(cur, c))
      && forall j :: 0 <= j < |CommitDeliveries(resumed, c)| ==> CommitDeliveries(resumed, c)[j].index == j
  {
    var start := Clamp(cur.index + 1, |c.payloads|);
    var kept := c.payloads[start..];
    DeliveredPayloads(cur, c, k);
    ResumedPayloads(cur, c, k);
    SplitAt(kept, k);
    DeliveriesFrom(CursorRecord(cur.sequence, cur.index + k), c);
  }

  /** The bodies a newer commit delivers, all of them and the first `k`. */
  lemma DeliveredPayloads(cur: CursorRecord, c: CommitData, k: nat)
    requires c.sequence > cur.sequence
    requires k <= |CommitDeliveries(cur, c)|
    ensures var kept := c.payloads[Clamp(cur.index + 1, |c.payloads|)..];
      && PayloadsOf(CommitDeliveries(cur, c)) == kept
      && PayloadsOf(CommitDeliveries(cur, c)[..k]) == kept[..k]
  {
    var kept := c.payloads[Clamp(cur.index + 1, |c.payloads|)..];
    DeliveriesFrom(cur, c);
    PayloadsOfPrefix(CommitDeliveries(cur, c), k);
    PayloadsOfTagged(kept, c.sequence);
  }

  /** The bodies a newer commit delivers from a cursor `k` events further on. */
  lemma ResumedPayloads(cur: CursorRecord, c: CommitData, k: nat)
    requires c.sequence > cur.sequence && cur.index >= -1
    requires k <= |CommitDeliveries(cur, c)|
    ensures var start := Clamp(cur.index + 1, |c.payloads|);
      PayloadsOf(CommitDeliveries(CursorRecord(cur.sequence, cur.index + k), c)) == c.payloads[start..][k..]
  {
    var start := Clamp(cur.index + 1, |c.payloads|);
    var resumed := CursorRecord(cur.sequence, cur.index + k);
    DeliveriesFrom(cur, c);
    DeliveriesFrom(resumed, c);
    assert Clamp(resumed.index + 1, |c.payloads|) == start + k;
    assert c.payloads[start + k..] == c.payloads[start..][k..];
    PayloadsOfTagged(c.payloads[start + k..], c.sequence);
  }

  /** A commit newer than the cursor delivers its bodies after position `cur.index`, tagged. */
  lemma DeliveriesFrom(cur: CursorRecord, c: CommitData)
    requires c.sequence > cur.sequence
    ensures CommitDeliveries(cur, c) == Tagged(c.payloads[Clamp(cur.index + 1, |c.payloads|)..], c.sequence)
  {
  }
}
